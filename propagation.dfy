/**
 * The dependency-count bookkeeping of `ObserverAdministrator`, as pure
 * functions: how scheduling an observer updates `pendingUpdatesDependencyCount`
 * (ObserverAdministrator.swift:132-144) and what the update loop of
 * `_updateCurrentObservers` (ObserverAdministrator.swift:174-200) does with the
 * pending list. The engine's methods are proved against these definitions.
 */
module Propagation {
  import opened Closures

  /** How many times `o` occurs in `s`. */
  function Occurrences(s: seq<Id>, o: Id): (n: nat)
    ensures n <= |s|
    ensures n > 0 <==> o in s
  {
    if s == [] then 0 else (if s[0] == o then 1 else 0) + Occurrences(s[1..], o)
  }

  /** Appending one element adds one occurrence of it and none of anything else. */
  lemma {:induction false} OccurrencesAppend(s: seq<Id>, x: Id, o: Id)
    ensures Occurrences(s + [x], o) == Occurrences(s, o) + if x == o then 1 else 0
    decreases |s|
  {
    if s == [] {
      assert [x][1..] == [];
    } else {
      assert (s + [x])[1..] == s[1..] + [x];
      OccurrencesAppend(s[1..], x, o);
    }
  }

  /** The pending list and the count map agree: exactly the listed observers
      have a count, and an observer listed k times has count k - 1. */
  ghost predicate CountsMatch(list: seq<Id>, counts: map<Id, int>) {
    && (forall o :: o in counts <==> o in list)
    && (forall o :: o in counts ==> counts[o] == Occurrences(list, o) - 1)
  }

  /** One scheduling of `o`: its first scheduling in a pass starts the count at
      the start count 0, each later one increments it. */
  function Bump(counts: map<Id, int>, o: Id): map<Id, int> {
    if o in counts then counts[o := counts[o] + 1] else counts[o := 0]
  }

  /** Appending `o` to the pending list while bumping its count keeps the two in
      agreement. */
  lemma BumpKeepsCountsMatch(list: seq<Id>, counts: map<Id, int>, o: Id)
    requires CountsMatch(list, counts)
    ensures CountsMatch(list + [o], Bump(counts, o))
  {
    forall p ensures Occurrences(list + [o], p) == Occurrences(list, p) + if o == p then 1 else 0 {
      OccurrencesAppend(list, o, p);
    }
  }

  /** What one walk over the pending list produces: the observers whose
      `updated()` was called, in order, and the final counts. */
  datatype Pass = Pass(fired: seq<Id>, counts: map<Id, int>)

  /** The update loop: an observer whose count is at most 0 is updated,
      otherwise its count is decremented. */
  function Drain(list: seq<Id>, counts: map<Id, int>): Pass
    requires forall j :: 0 <= j < |list| ==> list[j] in counts
    decreases |list|
  {
    if list == [] then Pass([], counts)
    else
      var o := list[0];
      if counts[o] <= 0 then
        var rest := Drain(list[1..], counts);
        Pass([o] + rest.fired, rest.counts)
      else
        Drain(list[1..], counts[o := counts[o] - 1])
  }

  /** The entries of `list` at their last occurrence, in list order: the
      order in which a pass updates the observers it lists. */
  function Lasts(list: seq<Id>): seq<Id>
    decreases |list|
  {
    if list == [] then []
    else (if list[0] in list[1..] then [] else [list[0]]) + Lasts(list[1..])
  }

  /** The walk updates each listed observer at its last occurrence in the
      list: the earlier occurrences only count down. */
  lemma {:induction false} DrainIsLasts(list: seq<Id>, counts: map<Id, int>)
    requires forall o :: o in list ==> o in counts && counts[o] == Occurrences(list, o) - 1
    ensures Drain(list, counts).fired == Lasts(list)
    decreases |list|
  {
    if list != [] {
      var o, rest := list[0], list[1..];
      assert list == [o] + rest;
      forall p ensures Occurrences(list, p) == (if o == p then 1 else 0) + Occurrences(rest, p) {
      }
      if counts[o] <= 0 {
        assert o !in rest by {
          assert Occurrences(rest, o) == 0;
        }
        DrainIsLasts(rest, counts);
      } else {
        assert o in rest;
        DrainIsLasts(rest, counts[o := counts[o] - 1]);
      }
    }
  }

  /** `Lasts` keeps exactly the entries of the list, each once. */
  lemma {:induction false} LastsOnce(list: seq<Id>, p: Id)
    ensures Occurrences(Lasts(list), p) == if p in list then 1 else 0
    decreases |list|
  {
    if list != [] {
      var o, rest := list[0], list[1..];
      assert list == [o] + rest;
      LastsOnce(rest, p);
      var head := if o in rest then [] else [o];
      OccurrencesConcat(head, Lasts(rest), p);
    }
  }

  /** Occurrences add up over a concatenation. */
  lemma {:induction false} OccurrencesConcat(a: seq<Id>, b: seq<Id>, p: Id)
    ensures Occurrences(a + b, p) == Occurrences(a, p) + Occurrences(b, p)
    decreases |a|
  {
    if a != [] {
      assert (a + b)[0] == a[0] && (a + b)[1..] == a[1..] + b;
      OccurrencesConcat(a[1..], b, p);
      assert Occurrences(a + b, p) == (if a[0] == p then 1 else 0) + Occurrences(a[1..] + b, p);
    } else {
      assert a + b == b;
    }
  }

  /** Exactly once per pass: when the counts agree with the list, every listed
      observer is updated exactly once and nothing else is updated. */
  lemma DrainFiresEachOnce(list: seq<Id>, counts: map<Id, int>, p: Id)
    requires forall o :: o in list ==> o in counts && counts[o] == Occurrences(list, o) - 1
    ensures Occurrences(Drain(list, counts).fired, p) == if p in list then 1 else 0
  {
    DrainIsLasts(list, counts);
    LastsOnce(list, p);
  }

  /** In `s`, every occurrence of `a` comes before every occurrence of `b`. */
  ghost predicate Before(s: seq<Id>, a: Id, b: Id) {
    forall i, j :: 0 <= i < |s| && 0 <= j < |s| && s[i] == a && s[j] == b ==> i < j
  }

  /** If every occurrence of `a` in the list is followed by an occurrence of
      a different `b`, then `a` is updated before `b`: a Computed's readers
      are listed after it, so a pass updates the Computed first. */
  lemma {:induction false} LastsOrder(list: seq<Id>, a: Id, b: Id)
    requires a != b
    requires forall i :: 0 <= i < |list| && list[i] == a ==> b in list[i + 1..]
    ensures Before(Lasts(list), a, b)
    decreases |list|
  {
    if list != [] {
      var o, rest := list[0], list[1..];
      forall i | 0 <= i < |rest| && rest[i] == a ensures b in rest[i + 1..] {
        assert list[i + 1] == a && list[i + 2..] == rest[i + 1..];
      }
      LastsOrder(rest, a, b);
      var l := Lasts(list);
      if o !in rest {
        assert l == [o] + Lasts(rest);
        if o == a {
          assert b in rest;
        } else if o == b {
          assert a !in rest;
          LastsSubset(rest, a);
        }
        forall i, j | 0 <= i < |l| && 0 <= j < |l| && l[i] == a && l[j] == b ensures i < j {
          if i > 0 && j > 0 {
            assert Lasts(rest)[i - 1] == a && Lasts(rest)[j - 1] == b;
          }
        }
      } else {
        assert l == Lasts(rest);
      }
    }
  }

  /** `Lasts` lists nothing the list does not. */
  lemma {:induction false} LastsSubset(list: seq<Id>, p: Id)
    ensures p in Lasts(list) ==> p in list
    decreases |list|
  {
    LastsOnce(list, p);
  }

  /** ... and every listed observer's count ends at 0, the others' unchanged. */
  lemma {:induction false} DrainZeroesCounts(list: seq<Id>, counts: map<Id, int>, p: Id)
    requires forall o :: o in list ==> o in counts && counts[o] == Occurrences(list, o) - 1
    ensures p in Drain(list, counts).counts <==> p in counts
    ensures p in counts ==> Drain(list, counts).counts[p] == if p in list then 0 else counts[p]
    decreases |list|
  {
    if list != [] {
      var o, rest := list[0], list[1..];
      if counts[o] <= 0 {
        assert o !in rest by {
          assert Occurrences(rest, o) == 0;
        }
        DrainZeroesCounts(rest, counts, p);
      } else {
        DrainZeroesCounts(rest, counts[o := counts[o] - 1], p);
      }
    }
  }

  /** One step of the walk starting at position `i`. */
  lemma DrainStep(list: seq<Id>, counts: map<Id, int>, i: nat)
    requires i < |list| && forall j :: 0 <= j < |list| ==> list[j] in counts
    ensures var o := list[i];
      Drain(list[i..], counts) ==
        if counts[o] <= 0 then Pass([o] + Drain(list[i + 1..], counts).fired, Drain(list[i + 1..], counts).counts)
        else Drain(list[i + 1..], counts[o := counts[o] - 1])
  {
    assert list[i..][0] == list[i] && list[i..][1..] == list[i + 1..];
  }

  /** A walk that has done its first `i` steps of `pass` does its first
      `i + 1` after visiting `list[i]`: a zero count records the call, any
      other count goes down by one. */
  lemma DrainAdvance(list: seq<Id>, i: nat, pass: Pass, calls0: seq<Id>,
                     c0: map<Id, int>, calls1: seq<Id>, c1: map<Id, int>, calls2: seq<Id>)
    requires i < |list| && forall j :: 0 <= j < |list| ==> list[j] in c0
    requires calls0 + pass.fired == calls1 + Drain(list[i..], c0).fired && pass.counts == Drain(list[i..], c0).counts
    requires var o := list[i];
      if c0[o] <= 0 then c1 == c0 && calls2 == calls1 + [o]
      else c1 == c0[o := c0[o] - 1] && calls2 == calls1
    ensures forall j :: 0 <= j < |list| ==> list[j] in c1
    ensures calls0 + pass.fired == calls2 + Drain(list[i + 1..], c1).fired
    ensures pass.counts == Drain(list[i + 1..], c1).counts
  {
    var o := list[i];
    DrainStep(list, c0, i);
    if c0[o] <= 0 {
      assert calls1 + ([o] + Drain(list[i + 1..], c0).fired) == (calls1 + [o]) + Drain(list[i + 1..], c0).fired;
    }
  }

  /** From position `i` on, the counts agree with what is left of the walk:
      an observer still listed k more times has count k - 1. */
  ghost predicate CountsAhead(list: seq<Id>, i: nat, counts: map<Id, int>)
    requires i <= |list|
  {
    forall o :: o in list[i..] ==> o in counts && counts[o] == Occurrences(list[i..], o) - 1
  }

  /** Visiting `list[i]` when the counts agree with the rest of the walk: its
      count is at most 0 exactly at its last occurrence, and after the visit
      (a call, or a decrement) the counts agree with the rest again. */
  lemma CountsAheadStep(list: seq<Id>, i: nat, counts: map<Id, int>)
    requires i < |list| && CountsAhead(list, i, counts)
    ensures list[i] in counts && (counts[list[i]] <= 0 <==> list[i] !in list[i + 1..])
    ensures var o := list[i];
      CountsAhead(list, i + 1, if counts[o] <= 0 then counts else counts[o := counts[o] - 1])
  {
    var o := list[i];
    assert list[i..][0] == o && list[i..][1..] == list[i + 1..];
    forall p ensures Occurrences(list[i..], p) == (if o == p then 1 else 0) + Occurrences(list[i + 1..], p) {
    }
    assert o in list[i..];
  }

  /** Every count is 0. */
  ghost predicate AllZero(counts: map<Id, int>) {
    forall p :: p in counts ==> counts[p] == 0
  }

  /** A whole pass over a list the counts agree with: every listed observer
      is updated exactly once, nothing else is, and every count ends at 0. */
  lemma PassOutcome(list: seq<Id>, counts: map<Id, int>)
    requires CountsMatch(list, counts)
    ensures forall j :: 0 <= j < |list| ==> list[j] in counts
    ensures forall p :: Occurrences(Drain(list, counts).fired, p) == if p in list then 1 else 0
    ensures forall p :: p in Drain(list, counts).counts <==> p in counts
    ensures AllZero(Drain(list, counts).counts)
  {
    forall p ensures Occurrences(Drain(list, counts).fired, p) == if p in list then 1 else 0 {
      DrainFiresEachOnce(list, counts, p);
    }
    forall p ensures p in Drain(list, counts).counts <==> p in counts {
      DrainZeroesCounts(list, counts, p);
    }
    forall p | p in Drain(list, counts).counts ensures Drain(list, counts).counts[p] == 0 {
      DrainZeroesCounts(list, counts, p);
    }
  }

  /** The list `[o, o, ..., o]` of length n: an observer reached through n
      changed dependencies in one pass, as in a diamond. */
  function Repeat(o: Id, n: nat): (s: seq<Id>)
    ensures |s| == n && forall i :: 0 <= i < n ==> s[i] == o
  {
    if n == 0 then [] else [o] + Repeat(o, n - 1)
  }

  /** A diamond: an observer reached along `n` paths in one pass is listed
      `n` times with count `n - 1`; its first `n - 1` visits only count down
      and the last one updates it, once. */
  lemma {:induction false} DiamondFiresOnce(o: Id, n: nat)
    requires n >= 1
    ensures forall j :: 0 <= j < |Repeat(o, n)| ==> Repeat(o, n)[j] in map[o := n - 1]
    ensures Drain(Repeat(o, n), map[o := n - 1]) == Pass([o], map[o := 0])
    decreases n
  {
    if n > 1 {
      DiamondFiresOnce(o, n - 1);
      assert Repeat(o, n)[1..] == Repeat(o, n - 1);
      assert map[o := n - 1][o := n - 2] == map[o := n - 2];
    } else {
      assert Repeat(o, 1)[1..] == [];
    }
  }
}
