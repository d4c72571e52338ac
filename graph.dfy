/**
 * The per-object state of cells and observers, as values.
 *
 * Each object (`Observable`, `Computed`, `ObserverContext`) is identified by
 * its `ObjectIdentifier`, an `Id`. What an object was created as lives in an
 * immutable `Decl` table; what its methods change lives in a `Node`. The
 * invariants of the object graph are stated here over those two tables, so
 * that the engine's methods can be proved against them.
 */
module Graph {
  import opened Wrappers
  import opened Closures

  /** The mutable fields of one object. Fields an object's kind does not have
      keep their initial value. */
  datatype Node = Node(
    observers: set<Id>,    // `IObservable.observers`: its readers, keyed by identity
    observing: set<Id>,    // `IObserver.observingObservables`: weak back-links, keyed by identity
    isObserving: bool,     // `IObserver.isObserving`
    tracking: bool,        // `IObserver._isTrackingRemovals`
    accessed: set<Id>,     // `IObserver._observablesAccessed`
    value: int,            // `Observable.value`
    cached: Option<int>,   // `Computed._value`
    cancelled: bool)       // the object's cancellable has fired

  /** A new object: no readers, no dependencies, not observing, not tracking,
      nothing cached. */
  function FreshNode(v: int): (n: Node)
    ensures n.observers == {} && n.observing == {} && n.accessed == {}
    ensures !n.isObserving && !n.tracking && !n.cancelled && n.cached == None && n.value == v
  {
    Node({}, {}, false, false, {}, v, None, false)
  }

  /** Ids are allocated densely; observers are never released (only cells
      are), so every Reaction and Computed is alive. */
  ghost predicate Registry(decls: seq<Decl>, nodes: seq<Node>, alive: set<Id>) {
    && |nodes| == |decls|
    && (forall x :: x in alive ==> x < |decls|)
    && (forall q :: 0 <= q < |decls| && !decls[q].CellDecl? ==> q in alive)
  }

  /** Edges point from newer objects to older ones: a reader of `x` is an
      observer created after `x`, and a dependency of `q` is an observable
      created before `q`. This is what makes the cascades terminate. */
  ghost predicate Ordered(decls: seq<Decl>, nodes: seq<Node>) {
    && |nodes| == |decls|
    && (forall x, q {:trigger q in nodes[x].observers} ::
          0 <= x < |nodes| && q in nodes[x].observers ==>
            x < q < |nodes| && !decls[x].ReactionDecl? && !decls[q].CellDecl?)
    && (forall q, x {:trigger x in nodes[q].observing} ::
          0 <= q < |nodes| && x in nodes[q].observing ==>
            x < q && !decls[x].ReactionDecl? && !decls[q].CellDecl?)
  }

  /** Reader and dependency edges agree on live objects:
      - a reader of a live object lists that object among its dependencies;
      - an observer is a reader of each of its live dependencies, unless it
        is a cancelled reaction (its cancellable forgets the readers'
        side only) or is in `busy`, the observers in the middle of unlinking
        themselves;
      - a Computed with no readers has no dependencies (its
        `onObserverCancelled` drops them when the last reader goes), unless
        it is in `busy`. */
  ghost predicate Linked(decls: seq<Decl>, nodes: seq<Node>, alive: set<Id>, busy: set<Id>) {
    && |nodes| == |decls|
    && (forall x, o {:trigger o in nodes[x].observers} ::
          0 <= x < |nodes| && x in alive && o in nodes[x].observers ==> 0 <= o < |nodes| && x in nodes[o].observing)
    && (forall o, x {:trigger x in nodes[o].observing} ::
          0 <= o < |nodes| && o !in busy && x in nodes[o].observing && x in alive && x < |nodes|
          && !(decls[o].ReactionDecl? && nodes[o].cancelled)
          ==> o in nodes[x].observers)
    && (forall c :: 0 <= c < |nodes| && c !in busy && decls[c].ComputedDecl? && nodes[c].observers == {} ==>
          nodes[c].observing == {})
  }

  /** Every closure refers only to live objects created before its owner. */
  ghost predicate ClosuresWf(decls: seq<Decl>, alive: set<Id>) {
    forall q :: 0 <= q < |decls| ==> WfDecl(decls[q], q, decls, alive)
  }

  /** No object below `lvl` is in the middle of a tracked run. */
  ghost predicate Quiet(nodes: seq<Node>, lvl: nat) {
    forall q :: 0 <= q < lvl && q < |nodes| ==> !nodes[q].tracking && nodes[q].accessed == {}
  }

  /** What the reads `rd` made under an observer's context do to that observer
      (`IObserver.didAccess` once per id): the ids join its back-links, join its
      accessed set if it is tracking removals, and it is now observing. */
  ghost predicate TrackedNode(a: Node, b: Node, rd: set<Id>) {
    b == a.(observing := a.observing + rd,
            accessed := if a.tracking then a.accessed + rd else a.accessed,
            isObserving := a.isObserving || rd != {})
  }

  /** From `lvl` up, the objects are unchanged, except the context `ctx`, which
      has made the reads `rd`. */
  ghost predicate Frame(n0: seq<Node>, n1: seq<Node>, lvl: nat, ctx: Option<Id>, rd: set<Id>) {
    && |n1| == |n0|
    && (forall q :: lvl <= q < |n0| ==>
          if ctx == Some(q) then TrackedNode(n0[q], n1[q], rd) else n1[q] == n0[q])
  }

  /** Reads compose: two runs under the same context make the union of their
      reads, and a frame above `lvl'` is one above every `lvl >= lvl'`. */
  lemma FrameTrans(n0: seq<Node>, n1: seq<Node>, n2: seq<Node>, lvl: nat, ctx: Option<Id>, rd1: set<Id>, rd2: set<Id>)
    requires Frame(n0, n1, lvl, ctx, rd1) && Frame(n1, n2, lvl, ctx, rd2)
    ensures Frame(n0, n2, lvl, ctx, rd1 + rd2)
  {
  }

  /** Making no reads changes nothing. */
  lemma FrameRefl(n: seq<Node>, lvl: nat, ctx: Option<Id>)
    ensures Frame(n, n, lvl, ctx, {})
  {
    forall q | lvl <= q < |n| ensures ctx == Some(q) ==> TrackedNode(n[q], n[q], {}) {
      assert n[q].observing + {} == n[q].observing;
      assert n[q].accessed + {} == n[q].accessed;
    }
  }

  /** No cancellable of the objects in `n0` fired, and none was undone;
      `n1` may hold newer objects. */
  ghost predicate SameCancelled(n0: seq<Node>, n1: seq<Node>) {
    && |n0| <= |n1|
    && forall q :: 0 <= q < |n0| ==> n1[q].cancelled == n0[q].cancelled
  }

  /** No cancellable fires, and a reaction other than the context `ctx`
      only loses dependencies. */
  ghost predicate Kept(decls: seq<Decl>, n0: seq<Node>, n1: seq<Node>, ctx: Option<Id>) {
    && |n1| == |n0| && SameCancelled(n0, n1)
    && (forall q :: 0 <= q < |n0| && q < |decls| && decls[q].ReactionDecl? && ctx != Some(q) ==>
          n1[q].observing <= n0[q].observing)
  }

  /** A reaction depends only on objects its tracked function may read. */
  ghost predicate DepsBounded(decls: seq<Decl>, nodes: seq<Node>) {
    forall o :: 0 <= o < |nodes| && o < |decls| && decls[o].ReactionDecl? ==>
      nodes[o].observing <= MayTrack(decls[o].handler.track)
  }

  /** Every object in `deps` is a cell. */
  ghost predicate CellDeps(decls: seq<Decl>, deps: set<Id>) {
    forall y :: y in deps ==> y < |decls| && decls[y].CellDecl?
  }

  /** The objects a context stands for: none, or the context itself. */
  function CtxIds(ctx: Option<Id>): (ids: set<Id>)
    ensures forall q :: q in ids <==> ctx == Some(q)
  {
    if ctx.Some? then {ctx.value} else {}
  }

  /** Apart from the objects in `who`, only cells changed, and only in their
      values and in which of `who` read them. */
  ghost predicate CellsOnly(decls: seq<Decl>, n0: seq<Node>, n1: seq<Node>, who: set<Id>) {
    && |n1| == |n0|
    && (forall q :: 0 <= q < |n0| && q !in who ==>
          if q < |decls| && decls[q].CellDecl? then
            && n1[q] == n0[q].(value := n1[q].value, observers := n1[q].observers)
            && n1[q].observers - who == n0[q].observers - who
          else n1[q] == n0[q])
  }

  /** Dependency `y` of `o` forgot `o`, going from `n1` to `n2`: edges were
      still only removed below `o`, every other object that `o` read still
      lists it, and when `y` is a cell, only cells have changed since `n0`
      if that was so before. */
  lemma ForgetStep(decls: seq<Decl>, n0: seq<Node>, n1: seq<Node>, n2: seq<Node>, y: Id, o: Id, cells: bool)
    requires y < o && y < |n1| && UnlinksBelow(n0, n1, o) && UnlinksBelow(n1, n2, y + 1)
    requires ReadersAbove(n1[y := n1[y].(observers := n1[y].observers - {o})], n2, y)
    requires cells ==> CellsOnly(decls, n0, n1, {o}) && y < |decls| && decls[y].CellDecl?
    requires y < |decls| && decls[y].CellDecl? ==> n2 == n1[y := n1[y].(observers := n1[y].observers - {o})]
    ensures UnlinksBelow(n0, n2, o)
    ensures forall k :: 0 <= k < |n1| && k != y && o in n1[k].observers ==> o in n2[k].observers
    ensures cells ==> CellsOnly(decls, n0, n2, {o})
  {
    UnlinksTrans(n0, n1, n2, o);
    KeptReaders(n1, n2, y, o);
    if cells {
      assert CellsOnly(decls, n1, n2, {o});
      CellsOnlyTrans(decls, n0, n1, n2, {o});
    }
  }

  /** Storing into cell `x` is a change to cells alone. */
  lemma StoreCell(decls: seq<Decl>, n0: seq<Node>, n1: seq<Node>, x: Id, v: int, who: set<Id>)
    requires CellsOnly(decls, n0, n1, who) && x < |n1| && x < |decls| && decls[x].CellDecl?
    ensures CellsOnly(decls, n0, n1[x := n1[x].(value := v)], who)
  {
    assert CellsOnly(decls, n1, n1[x := n1[x].(value := v)], who);
    CellsOnlyTrans(decls, n0, n1, n1[x := n1[x].(value := v)], who);
  }

  /** The pruning bracket's end for `o`, from `na` to `nd`: the flag is
      cleared, the dropped dependencies forget `o` (from `nb` to `nc`), and
      `o`'s own record is rewritten. When `o` depended on cells alone, only
      cells and `o` changed. */
  lemma PruneCells(decls: seq<Decl>, na: seq<Node>, nb: seq<Node>, nc: seq<Node>, nd: seq<Node>, o: Id)
    requires o < |na| && nb == na[o := na[o].(tracking := false)]
    requires CellDeps(decls, nb[o].observing) ==> CellsOnly(decls, nb, nc, {o})
    requires |nd| == |nc| && forall q :: 0 <= q < |nc| && q != o ==> nd[q] == nc[q]
    ensures CellDeps(decls, na[o].observing) ==> CellsOnly(decls, na, nd, {o})
  {
    if CellDeps(decls, na[o].observing) {
      assert CellsOnly(decls, na, nb, {o});
      assert CellsOnly(decls, nc, nd, {o});
      CellsOnlyTrans(decls, na, nb, nc, {o});
      CellsOnlyTrans(decls, na, nc, nd, {o});
    }
  }

  /** A change that spares more objects spares fewer. */
  lemma CellsOnlyWiden(decls: seq<Decl>, n0: seq<Node>, n1: seq<Node>, who: set<Id>, more: set<Id>)
    requires CellsOnly(decls, n0, n1, who) && who <= more
    ensures CellsOnly(decls, n0, n1, more)
  {
    forall q | 0 <= q < |n0| && q !in more && q < |decls| && decls[q].CellDecl?
      ensures n1[q].observers - more == n0[q].observers - more
    {
      assert n1[q].observers - more == (n1[q].observers - who) - more;
      assert n0[q].observers - more == (n0[q].observers - who) - more;
    }
  }

  lemma CellsOnlyTrans(decls: seq<Decl>, n0: seq<Node>, n1: seq<Node>, n2: seq<Node>, who: set<Id>)
    requires CellsOnly(decls, n0, n1, who) && CellsOnly(decls, n1, n2, who)
    ensures CellsOnly(decls, n0, n2, who)
  {
  }

  /** Creating an object: its declaration refers only to live objects that
      already exist, so every invariant of the graph survives. */
  lemma AllocatePreserves(decls: seq<Decl>, nodes: seq<Node>, alive: set<Id>, d: Decl, v: int)
    requires Registry(decls, nodes, alive) && Ordered(decls, nodes) && ClosuresWf(decls, alive) && Quiet(nodes, |nodes|)
    requires Linked(decls, nodes, alive, {})
    requires WfDecl(d, |decls|, decls, alive)
    ensures Registry(decls + [d], nodes + [FreshNode(v)], alive + {|decls|})
    ensures Ordered(decls + [d], nodes + [FreshNode(v)])
    ensures Linked(decls + [d], nodes + [FreshNode(v)], alive + {|decls|}, {})
    ensures ClosuresWf(decls + [d], alive + {|decls|})
    ensures Quiet(nodes + [FreshNode(v)], |nodes| + 1)
  {
    var decls', nodes', alive' := decls + [d], nodes + [FreshNode(v)], alive + {|decls|};
    assert decls'[..|decls|] == decls;
    forall q | 0 <= q < |decls'| ensures WfDecl(decls'[q], q, decls', alive') {
      if q < |decls| {
        WfDeclExtend(decls[q], q, decls, alive, decls', alive');
      } else {
        WfDeclExtend(d, q, decls, alive, decls', alive');
      }
    }
    forall x, q | 0 <= x < |nodes'| && q in nodes'[x].observers
      ensures x < q < |nodes'| && !decls'[x].ReactionDecl? && !decls'[q].CellDecl?
    {
      assert x < |nodes| && nodes'[x] == nodes[x];
    }
    forall q, x | 0 <= q < |nodes'| && x in nodes'[q].observing
      ensures x < q && !decls'[x].ReactionDecl? && !decls'[q].CellDecl?
    {
      assert q < |nodes| && nodes'[q] == nodes[q];
    }
    forall x, o | 0 <= x < |nodes'| && x in alive' && o in nodes'[x].observers
      ensures 0 <= o < |nodes'| && x in nodes'[o].observing
    {
      assert x < |nodes| && nodes'[x] == nodes[x] && nodes'[o] == nodes[o];
    }
    forall o, x | 0 <= o < |nodes'| && x in nodes'[o].observing && x in alive' && x < |nodes'|
        && !(decls'[o].ReactionDecl? && nodes'[o].cancelled)
      ensures o in nodes'[x].observers
    {
      assert o < |nodes| && nodes'[o] == nodes[o] && decls'[o] == decls[o];
      assert x < o && nodes'[x] == nodes[x];
    }
  }

  /** `IObserver.didAccess(observable:)` on the observer's fields: the back-link
      is added (a set keyed by identity keeps an existing one), the id is
      recorded as accessed only while tracking removals, and the observer is
      now observing. */
  function DidAccessNode(n: Node, x: Id): (n': Node)
    ensures TrackedNode(n, n', {x})
  {
    n.(observing := n.observing + {x},
       accessed := if n.tracking then n.accessed + {x} else n.accessed,
       isObserving := true)
  }

  /** A tracked read of `x` under context `o` (`IObservable.willGetValue`):
      `o` becomes a reader of `x`, and `o.didAccess(x)`. */
  function AddRead(nodes: seq<Node>, x: Id, o: Id): seq<Node>
    requires x < o < |nodes|
  {
    var n := nodes[x := nodes[x].(observers := nodes[x].observers + {o})];
    n[o := DidAccessNode(n[o], x)]
  }

  /** A tracked read adds the edge between the pair in both directions,
      changes nothing else from `x + 1` up but the context's record of the
      read, and keeps the graph ordered. */
  lemma AddReadPreserves(decls: seq<Decl>, alive: set<Id>, nodes: seq<Node>, x: Id, o: Id, lvl: nat)
    requires Ordered(decls, nodes) && x < o < |nodes|
    requires !decls[x].ReactionDecl? && !decls[o].CellDecl?
    requires Quiet(nodes, lvl) && lvl <= o
    requires Linked(decls, nodes, alive, {}) && (decls[o].ComputedDecl? ==> nodes[o].observers != {})
    ensures o in AddRead(nodes, x, o)[x].observers && x in AddRead(nodes, x, o)[o].observing
    ensures Ordered(decls, AddRead(nodes, x, o)) && Linked(decls, AddRead(nodes, x, o), alive, {})
    ensures Frame(nodes, AddRead(nodes, x, o), x + 1, Some(o), {x})
    ensures Quiet(AddRead(nodes, x, o), lvl)
  {
    var n' := AddRead(nodes, x, o);
    forall y, q | 0 <= y < |n'| && q in n'[y].observers
      ensures y < q < |n'| && !decls[y].ReactionDecl? && !decls[q].CellDecl?
    {
      if y != x {
        assert n'[y].observers == nodes[y].observers;
      }
    }
    forall q, y | 0 <= q < |n'| && y in n'[q].observing
      ensures y < q && !decls[y].ReactionDecl? && !decls[q].CellDecl?
    {
      if q != o {
        assert n'[q].observing == nodes[q].observing;
      }
    }
    AddReadLinked(decls, alive, nodes, x, o);
  }

  /** A tracked read adds both edges of the pair, so the graph stays linked;
      the context gains a dependency only when it is no Computed or already
      has readers. */
  lemma AddReadLinked(decls: seq<Decl>, alive: set<Id>, nodes: seq<Node>, x: Id, o: Id)
    requires Ordered(decls, nodes) && x < o < |nodes|
    requires Linked(decls, nodes, alive, {}) && (decls[o].ComputedDecl? ==> nodes[o].observers != {})
    ensures Linked(decls, AddRead(nodes, x, o), alive, {})
  {
    var n' := AddRead(nodes, x, o);
    forall y, q | 0 <= y < |n'| && y in alive && q in n'[y].observers
      ensures 0 <= q < |n'| && y in n'[q].observing
    {
      if y != x {
        assert n'[y].observers == nodes[y].observers;
      }
    }
    forall q, y | 0 <= q < |n'| && y in n'[q].observing && y in alive && y < |n'|
        && !(decls[q].ReactionDecl? && n'[q].cancelled)
      ensures q in n'[y].observers
    {
      if q != o {
        assert n'[q].observing == nodes[q].observing;
      }
    }
    forall c | 0 <= c < |n'| && decls[c].ComputedDecl? && n'[c].observers == {}
      ensures n'[c].observing == {}
    {
      assert c != x && c != o;
    }
  }

  /** `b` is `a` with some reader and dependency edges removed. */
  ghost predicate Unlinked(a: Node, b: Node) {
    && b == a.(observers := b.observers, observing := b.observing)
    && b.observers <= a.observers && b.observing <= a.observing
  }

  /** Below `lvl` edges were only removed; from `lvl` up nothing changed. */
  ghost predicate UnlinksBelow(n0: seq<Node>, n1: seq<Node>, lvl: nat) {
    && |n1| == |n0|
    && (forall q :: 0 <= q < |n0| ==> if q < lvl then Unlinked(n0[q], n1[q]) else n1[q] == n0[q])
  }

  /** Removing edges keeps the graph ordered and quiet. */
  lemma UnlinksPreserve(decls: seq<Decl>, n0: seq<Node>, n1: seq<Node>, lvl: nat, quiet: nat)
    requires Ordered(decls, n0) && UnlinksBelow(n0, n1, lvl)
    ensures Ordered(decls, n1)
    ensures Quiet(n0, quiet) ==> Quiet(n1, quiet)
  {
    forall y, q | 0 <= y < |n1| && q in n1[y].observers
      ensures y < q < |n1| && !decls[y].ReactionDecl? && !decls[q].CellDecl?
    {
      assert q in n0[y].observers;
    }
    forall q, y | 0 <= q < |n1| && y in n1[q].observing
      ensures y < q && !decls[y].ReactionDecl? && !decls[q].CellDecl?
    {
      assert y in n0[q].observing;
    }
  }

  /** Unlinking composes. */
  lemma UnlinksTrans(n0: seq<Node>, n1: seq<Node>, n2: seq<Node>, lvl: nat)
    requires UnlinksBelow(n0, n1, lvl) && UnlinksBelow(n1, n2, lvl)
    ensures UnlinksBelow(n0, n2, lvl)
  {
  }

  /** Shrinking one observer's dependencies keeps the graph ordered. */
  lemma ShrinkDepsPreserves(decls: seq<Decl>, n: seq<Node>, o: Id, deps: set<Id>)
    requires Ordered(decls, n) && o < |n| && deps <= n[o].observing
    ensures Ordered(decls, n[o := n[o].(observing := deps, accessed := {}, tracking := false)])
  {
    var n' := n[o := n[o].(observing := deps, accessed := {}, tracking := false)];
    forall q, y | 0 <= q < |n'| && y in n'[q].observing
      ensures y < q && !decls[y].ReactionDecl? && !decls[q].CellDecl?
    {
      assert y in n[q].observing;
    }
    forall y, q | 0 <= y < |n'| && q in n'[y].observers
      ensures y < q < |n'| && !decls[y].ReactionDecl? && !decls[q].CellDecl?
    {
      assert q in n[y].observers;
    }
  }

  /** Every reader edge whose reader is newer than `b` survives from `n0` to
      `n1`: a cascade started at `b` only removes edges of `b` and older
      readers. */
  ghost predicate ReadersAbove(n0: seq<Node>, n1: seq<Node>, b: Id) {
    && |n1| == |n0|
    && (forall q, r {:trigger r in n0[q].observers} ::
          0 <= q < |n0| && r in n0[q].observers && b < r ==> r in n1[q].observers)
  }

  /** A cascade on behalf of `c` that removed `c` from the readers of an
      older `y` and then went on below `y` keeps every reader newer than `c`. */
  lemma ReadersAboveStep(n0: seq<Node>, n1: seq<Node>, n2: seq<Node>, y: Id, c: Id)
    requires ReadersAbove(n0, n1, c) && y < c && y < |n1|
    requires ReadersAbove(n1[y := n1[y].(observers := n1[y].observers - {c})], n2, y)
    ensures ReadersAbove(n0, n2, c)
  {
    var m := n1[y := n1[y].(observers := n1[y].observers - {c})];
    forall q, r | 0 <= q < |n0| && r in n0[q].observers && c < r ensures r in n2[q].observers {
      assert r in n1[q].observers;
      assert r in m[q].observers;
    }
  }

  /** Dropping reader `o`, which is unlinking itself, from `x`'s readers
      keeps the graph linked, except that `x` joins the busy observers when
      it is a Computed left with no readers. */
  lemma DropReaderLinked(decls: seq<Decl>, nodes: seq<Node>, alive: set<Id>, busy: set<Id>, x: Id, o: Id)
    requires Linked(decls, nodes, alive, busy) && o in busy && x < |nodes|
    ensures var n := nodes[x := nodes[x].(observers := nodes[x].observers - {o})];
      && Linked(decls, n, alive, busy + {x})
      && (!(decls[x].ComputedDecl? && n[x].observers == {}) ==> Linked(decls, n, alive, busy))
  {
    var n := nodes[x := nodes[x].(observers := nodes[x].observers - {o})];
    forall y, q | 0 <= y < |n| && y in alive && q in n[y].observers ensures 0 <= q < |n| && y in n[q].observing {
      assert q in nodes[y].observers;
    }
    forall q, y | 0 <= q < |n| && q !in busy && y in n[q].observing && y in alive && y < |n|
        && !(decls[q].ReactionDecl? && n[q].cancelled)
      ensures q in n[y].observers
    {
      assert q in nodes[y].observers;
    }
  }

  /** Emptying the dependencies of `c`, whose live dependencies have all
      forgotten it, takes it out of the busy observers. */
  lemma ClearDepsLinked(decls: seq<Decl>, nodes: seq<Node>, alive: set<Id>, busy: set<Id>, c: Id)
    requires Linked(decls, nodes, alive, busy + {c}) && c < |nodes|
    requires forall y :: y in nodes[c].observing && y in alive && y < |nodes| ==> c !in nodes[y].observers
    ensures Linked(decls, nodes[c := nodes[c].(observing := {})], alive, busy)
  {
    var n := nodes[c := nodes[c].(observing := {})];
    forall y, q | 0 <= y < |n| && y in alive && q in n[y].observers ensures 0 <= q < |n| && y in n[q].observing {
      assert q in nodes[y].observers && y in nodes[q].observing;
    }
  }

  /** An observer that is a cancelled reaction needs no reader edges, so it
      can leave the busy observers. */
  lemma CancelledLinked(decls: seq<Decl>, nodes: seq<Node>, alive: set<Id>, o: Id)
    requires Linked(decls, nodes, alive, {o}) && o < |nodes| && decls[o].ReactionDecl? && nodes[o].cancelled
    ensures Linked(decls, nodes, alive, {})
  {
  }

  /** `stopTrackingRemovals` ends linked: observer `o` keeps exactly the
      dependencies `deps`, every dropped live one has forgotten it, every
      kept live one still lists it, and a Computed that prunes has readers. */
  lemma ShrinkLinked(decls: seq<Decl>, nodes: seq<Node>, alive: set<Id>, o: Id, deps: set<Id>)
    requires Linked(decls, nodes, alive, {o}) && o < |nodes| && deps <= nodes[o].observing
    requires forall y :: y in nodes[o].observing - deps && y in alive && y < |nodes| ==> o !in nodes[y].observers
    requires !(decls[o].ReactionDecl? && nodes[o].cancelled) ==>
      forall y :: y in deps && y in alive && y < |nodes| ==> o in nodes[y].observers
    requires decls[o].ComputedDecl? ==> nodes[o].observers != {}
    ensures Linked(decls, nodes[o := nodes[o].(observing := deps, accessed := {}, tracking := false)], alive, {})
  {
    var n := nodes[o := nodes[o].(observing := deps, accessed := {}, tracking := false)];
    forall y, q | 0 <= y < |n| && y in alive && q in n[y].observers ensures 0 <= q < |n| && y in n[q].observing {
      assert q in nodes[y].observers && y in nodes[q].observing;
    }
    forall q, y | 0 <= q < |n| && y in n[q].observing && y in alive && y < |n|
        && !(decls[q].ReactionDecl? && n[q].cancelled)
      ensures q in n[y].observers
    {
      assert y in nodes[q].observing;
    }
  }

  /** A cascade started at `y` that drops the newer reader `o` from `y`
      keeps `o` as a reader of every other object. */
  lemma KeptReaders(n1: seq<Node>, n2: seq<Node>, y: Id, o: Id)
    requires y < o && y < |n1|
    requires ReadersAbove(n1[y := n1[y].(observers := n1[y].observers - {o})], n2, y)
    ensures forall k :: 0 <= k < |n1| && k != y && o in n1[k].observers ==> o in n2[k].observers
  {
    forall k | 0 <= k < |n1| && k != y && o in n1[k].observers ensures o in n2[k].observers {
      assert o in n1[y := n1[y].(observers := n1[y].observers - {o})][k].observers;
    }
  }

  /** In a linked graph a Computed with no readers is cut off: it has no
      dependencies, and no live object lists it as a reader. */
  lemma Orphans(decls: seq<Decl>, nodes: seq<Node>, alive: set<Id>)
    requires Linked(decls, nodes, alive, {})
    ensures forall c :: 0 <= c < |nodes| && decls[c].ComputedDecl? && nodes[c].observers == {} ==>
      nodes[c].observing == {} && forall y :: y in alive && y < |nodes| ==> c !in nodes[y].observers
  {
  }

  /** `stopTrackingRemovals` on observer `o`: the flag is cleared, exactly the
      dependencies accessed while tracking are kept, the accessed set is
      emptied, every dropped dependency still alive has forgotten `o`, older
      objects only lost edges, and newer ones are untouched. */
  ghost predicate Pruned(alive: set<Id>, n0: seq<Node>, n1: seq<Node>, o: Id) {
    && |n1| == |n0| && o < |n0|
    && n1[o] == n0[o].(tracking := false, observing := n0[o].observing * n0[o].accessed, accessed := {})
    && (forall q :: 0 <= q < |n0| && q != o ==>
          if q < o then Unlinked(n0[q], n1[q]) else n1[q] == n0[q])
    && (forall y :: y in n0[o].observing - n0[o].accessed && y in alive && y < |n1| ==> o !in n1[y].observers)
  }

  /** The cells' stored values, by id. */
  function Values(nodes: seq<Node>): (store: seq<int>)
    ensures |store| == |nodes| && forall q :: 0 <= q < |nodes| ==> store[q] == nodes[q].value
  {
    seq(|nodes|, q requires 0 <= q < |nodes| => nodes[q].value)
  }

  /** Changing anything but the stored values leaves the store alone. */
  lemma SameValues(n0: seq<Node>, n1: seq<Node>)
    requires |n1| == |n0| && forall q :: 0 <= q < |n0| ==> n1[q].value == n0[q].value
    ensures Values(n1) == Values(n0)
  {
  }

  /** Changing anything but the edges, and cancelling but never
      un-cancelling, keeps the graph ordered and linked. */
  lemma SameEdges(decls: seq<Decl>, alive: set<Id>, n0: seq<Node>, n1: seq<Node>)
    requires Ordered(decls, n0) && Linked(decls, n0, alive, {}) && |n1| == |n0|
    requires forall q :: 0 <= q < |n0| ==> n1[q].observers == n0[q].observers && n1[q].observing == n0[q].observing
    requires forall q :: 0 <= q < |n0| && n0[q].cancelled ==> n1[q].cancelled
    ensures Ordered(decls, n1) && Linked(decls, n1, alive, {})
  {
    forall y, q | 0 <= y < |n1| && q in n1[y].observers
      ensures y < q < |n1| && !decls[y].ReactionDecl? && !decls[q].CellDecl?
    {
      assert q in n0[y].observers;
    }
    forall q, y | 0 <= q < |n1| && y in n1[q].observing
      ensures y < q && !decls[y].ReactionDecl? && !decls[q].CellDecl?
    {
      assert y in n0[q].observing;
    }
  }

  /** Caching a Computed's value keeps the graph ordered. */
  lemma CachePreserves(decls: seq<Decl>, alive: set<Id>, n: seq<Node>, c: Id, v: int)
    requires Ordered(decls, n) && Linked(decls, n, alive, {}) && c < |n|
    ensures Ordered(decls, n[c := n[c].(cached := Some(v))]) && Linked(decls, n[c := n[c].(cached := Some(v))], alive, {})
  {
    SameEdges(decls, alive, n, n[c := n[c].(cached := Some(v))]);
  }
}
