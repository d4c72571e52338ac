/**
 * `ReactionCyclicChangeDetector` (ObserverAdministrator.swift:203-230): the
 * debug-build record of the cells read under a tracking context and the cells
 * written, used to flag a reaction that reads and writes the same cell.
 */
module CyclicDetector {
  import opened Closures

  class ReactionCyclicChangeDetector {
    var accessedObservables: set<Id>
    var settedObservables: set<Id>

    constructor ()
      ensures accessedObservables == {} && settedObservables == {}
    {
      accessedObservables := {};
      settedObservables := {};
    }

    /** `isCyclic`: some cell was both read and written. */
    function IsCyclic(): (cyclic: bool)
      reads this
      ensures cyclic <==> exists x :: x in accessedObservables && x in settedObservables
    {
      !(accessedObservables !! settedObservables)
    }

    method AccessedObservable(x: Id)
      modifies this
      ensures accessedObservables == old(accessedObservables) + {x}
      ensures settedObservables == old(settedObservables)
    {
      accessedObservables := accessedObservables + {x};
    }

    method DidSetObservable(x: Id)
      modifies this
      ensures settedObservables == old(settedObservables) + {x}
      ensures accessedObservables == old(accessedObservables)
    {
      settedObservables := settedObservables + {x};
    }

    method Clear()
      modifies this
      ensures accessedObservables == {} && settedObservables == {}
      ensures !IsCyclic()
    {
      accessedObservables := {};
      settedObservables := {};
    }
  }
}
