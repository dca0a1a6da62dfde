/** The overlap resolver `remove_close_atoms`: a greedy pass in index order
    that removes the higher-indexed atom of every close pair.

    The neighbour list and the distance computation are foreign code; they
    are given here as oracles on atom values. `reported(a, b)` says the
    neighbour list (radius `cutoff / 2` per atom, so pairs nearer than
    `cutoff`) lists `b` among the neighbours of `a`, and `distance(a, b)`
    is the distance the script then measures: the minimum-image distance
    in three of the four copies, the direct distance in the fourth. */
module Overlap {
  import opened Common

  /** One atom of a structure: its chemical symbol and position. */
  datatype Atom = Atom(symbol: string, position: Vec3)

  /** The test the scripts apply to a pair `(i, idx)` with `i < idx`:
      listed by the neighbour list and strictly nearer than the cutoff. */
  function CloseUnder(reported: (Atom, Atom) -> bool, distance: (Atom, Atom) -> real, cutoff: real): (Atom, Atom) -> bool
  {
    (a: Atom, b: Atom) => reported(a, b) && distance(a, b) < cutoff
  }

  /** Some atom with index below `bound` and below `j` is close to atom `j`. */
  ghost predicate CloseToLower(atoms: seq<Atom>, close: (Atom, Atom) -> bool, bound: int, j: int)
    requires 0 <= j < |atoms|
  {
    exists i :: 0 <= i < bound && i < j && close(atoms[i], atoms[j])
  }

  /** The indices the pass marks: those with a close lower-indexed partner,
      whether or not that partner is marked itself. */
  ghost function Marked(atoms: seq<Atom>, close: (Atom, Atom) -> bool): set<nat>
  {
    set j: nat | j < |atoms| && CloseToLower(atoms, close, j, j)
  }

  /** The atoms whose index is not in `marked`, in their original order
      (the boolean-mask selection `atoms[[i not in marked ...]]`). */
  function Keep(atoms: seq<Atom>, marked: set<nat>): seq<Atom>
  {
    if |atoms| == 0 then []
    else
      Keep(atoms[..|atoms| - 1], marked)
        + (if |atoms| - 1 in marked then [] else [atoms[|atoms| - 1]])
  }

  /** The indices below `n` that are not in `marked`, ascending. */
  function KeptIndices(n: nat, marked: set<nat>): seq<nat>
  {
    if n == 0 then [] else KeptIndices(n - 1, marked) + (if n - 1 in marked then [] else [n - 1])
  }

  /** What `remove_close_atoms` returns. */
  ghost function RemoveClose(atoms: seq<Atom>, close: (Atom, Atom) -> bool): seq<Atom>
  {
    Keep(atoms, Marked(atoms, close))
  }

  /** `remove_close_atoms(atoms, cutoff)`. The outer loop visits every atom
      `i`; the inner loop visits the atoms the neighbour list reports for
      `i` and marks each higher-indexed one nearer than the cutoff. */
  method RemoveCloseAtoms(atoms: seq<Atom>, reported: (Atom, Atom) -> bool,
                          distance: (Atom, Atom) -> real, cutoff: real)
    returns (kept: seq<Atom>)
    ensures kept == RemoveClose(atoms, CloseUnder(reported, distance, cutoff))
  {
    ghost var close := CloseUnder(reported, distance, cutoff);
    var n := |atoms|;
    var toRemove: set<nat> := {};
    for i := 0 to n
      invariant forall j :: j in toRemove <==> 0 <= j < n && CloseToLower(atoms, close, i, j)
    {
      for idx := 0 to n
        invariant forall j :: j in toRemove <==>
          0 <= j < n && (CloseToLower(atoms, close, i, j) || (i < j < idx && close(atoms[i], atoms[j])))
      {
        if reported(atoms[i], atoms[idx]) && i < idx {
          if distance(atoms[i], atoms[idx]) < cutoff {
            toRemove := toRemove + {idx};
          }
        }
      }
    }
    assert toRemove == Marked(atoms, close);
    kept := Keep(atoms, toRemove);
  }

  // ---------------------------------------------------------------------
  // What survives

  /** The kept indices are ascending, below `n`, and are exactly the
      indices not in `marked`. */
  lemma {:induction false} KeptIndicesSpec(n: nat, marked: set<nat>)
    ensures forall p, q :: 0 <= p < q < |KeptIndices(n, marked)| ==>
      KeptIndices(n, marked)[p] < KeptIndices(n, marked)[q]
    ensures forall k :: 0 <= k < |KeptIndices(n, marked)| ==> KeptIndices(n, marked)[k] < n
    ensures forall x: int :: x in KeptIndices(n, marked) <==> 0 <= x < n && x !in marked
  {
    if n > 0 {
      KeptIndicesSpec(n - 1, marked);
      var prev := KeptIndices(n - 1, marked);
      var last: seq<nat> := if n - 1 in marked then [] else [n - 1];
      assert KeptIndices(n, marked) == prev + last;
      forall x | x in prev
        ensures x < n - 1
      {
        var k :| 0 <= k < |prev| && prev[k] == x;
      }
    }
  }

  /** Survivor `k` is the atom at the `k`-th kept index: `Keep` removes
      exactly the marked indices and keeps the rest in order. */
  lemma {:induction false} KeepIndexing(atoms: seq<Atom>, marked: set<nat>)
    ensures |Keep(atoms, marked)| == |KeptIndices(|atoms|, marked)|
    ensures forall k :: 0 <= k < |Keep(atoms, marked)| ==>
      KeptIndices(|atoms|, marked)[k] < |atoms| &&
      Keep(atoms, marked)[k] == atoms[KeptIndices(|atoms|, marked)[k]]
  {
    if |atoms| > 0 {
      var n := |atoms|;
      var prefix := atoms[..n - 1];
      KeepIndexing(prefix, marked);
      KeptIndicesSpec(n - 1, marked);
    }
  }

  /** Marking nothing keeps everything. */
  lemma {:induction false} KeepNothingMarked(atoms: seq<Atom>, marked: set<nat>)
    requires forall j :: 0 <= j < |atoms| ==> j !in marked
    ensures Keep(atoms, marked) == atoms
  {
    if |atoms| > 0 {
      KeepNothingMarked(atoms[..|atoms| - 1], marked);
    }
  }

  /** Index 0 is never marked, so the first atom always survives, still first. */
  lemma FirstAtomKept(atoms: seq<Atom>, close: (Atom, Atom) -> bool)
    requires |atoms| > 0
    ensures 0 !in Marked(atoms, close)
    ensures |RemoveClose(atoms, close)| > 0 && RemoveClose(atoms, close)[0] == atoms[0]
  {
    var marked := Marked(atoms, close);
    KeepIndexing(atoms, marked);
    KeptIndicesSpec(|atoms|, marked);
    var ks := KeptIndices(|atoms|, marked);
    assert 0 in ks;
    var p :| 0 <= p < |ks| && ks[p] == 0;
    assert ks[0] <= ks[p];
  }

  /** An atom is removed exactly when some lower-indexed atom is close to it. */
  lemma RemovedIffCloseToLower(atoms: seq<Atom>, close: (Atom, Atom) -> bool, j: nat)
    requires j < |atoms|
    ensures j in KeptIndices(|atoms|, Marked(atoms, close)) <==>
      forall i :: 0 <= i < j ==> !close(atoms[i], atoms[j])
  {
    KeptIndicesSpec(|atoms|, Marked(atoms, close));
  }

  /** No two survivors are close: the later one of a close pair would have
      been marked by the earlier, even if the earlier was itself removed. */
  lemma SurvivorsSeparated(atoms: seq<Atom>, close: (Atom, Atom) -> bool)
    ensures forall p, q :: 0 <= p < q < |RemoveClose(atoms, close)| ==>
      !close(RemoveClose(atoms, close)[p], RemoveClose(atoms, close)[q])
  {
    var marked := Marked(atoms, close);
    var kept := RemoveClose(atoms, close);
    var ks := KeptIndices(|atoms|, marked);
    KeepIndexing(atoms, marked);
    KeptIndicesSpec(|atoms|, marked);
    forall p, q | 0 <= p < q < |kept|
      ensures !close(kept[p], kept[q])
    {
      var i, j := ks[p], ks[q];
      assert j in ks;
      assert i < j;
      assert !CloseToLower(atoms, close, j, j);
    }
  }

  /** With a symmetric closeness test, survivors are separated in both orders. */
  lemma SurvivorsSeparatedSymmetric(atoms: seq<Atom>, close: (Atom, Atom) -> bool)
    requires forall a, b :: close(a, b) == close(b, a)
    ensures forall p, q :: 0 <= p < |RemoveClose(atoms, close)| && 0 <= q < |RemoveClose(atoms, close)| && p != q ==>
      !close(RemoveClose(atoms, close)[p], RemoveClose(atoms, close)[q])
  {
    var kept := RemoveClose(atoms, close);
    SurvivorsSeparated(atoms, close);
    forall p, q | 0 <= p < |kept| && 0 <= q < |kept| && p != q
      ensures !close(kept[p], kept[q])
    {
      if q < p {
        assert !close(kept[q], kept[p]);
      }
    }
  }

  /** Applying the resolver a second time removes nothing. */
  lemma RemoveCloseIdempotent(atoms: seq<Atom>, close: (Atom, Atom) -> bool)
    ensures RemoveClose(RemoveClose(atoms, close), close) == RemoveClose(atoms, close)
  {
    var kept := RemoveClose(atoms, close);
    SurvivorsSeparated(atoms, close);
    var again := Marked(kept, close);
    forall j | 0 <= j < |kept|
      ensures j !in again
    {
      assert forall i :: 0 <= i < j ==> !close(kept[i], kept[j]);
    }
    KeepNothingMarked(kept, again);
  }

  /** The atom count never increases, and stays the same exactly when
      nothing is marked. */
  lemma {:induction false} KeepLength(atoms: seq<Atom>, marked: set<nat>)
    ensures |Keep(atoms, marked)| <= |atoms|
    ensures |Keep(atoms, marked)| == |atoms| <==> forall j :: 0 <= j < |atoms| ==> j !in marked
  {
    if |atoms| > 0 {
      KeepLength(atoms[..|atoms| - 1], marked);
    }
  }

  /** A closeness test that holds on fewer pairs marks fewer atoms. */
  lemma MarkedMonotone(atoms: seq<Atom>, weaker: (Atom, Atom) -> bool, stronger: (Atom, Atom) -> bool)
    requires forall a, b :: weaker(a, b) ==> stronger(a, b)
    ensures Marked(atoms, weaker) <= Marked(atoms, stronger)
  {
    forall j | j in Marked(atoms, weaker)
      ensures j in Marked(atoms, stronger)
    {
      var i :| 0 <= i < j && i < j && weaker(atoms[i], atoms[j]);
      assert stronger(atoms[i], atoms[j]);
    }
  }

  /** The copy that measures the direct distance (no minimum image) marks a
      subset of what the minimum-image copies mark, since the minimum-image
      distance never exceeds the direct one: a pair listed only through a
      periodic image is removed by it only if its direct distance is below
      the cutoff. */
  lemma DirectDistanceMarksSubset(atoms: seq<Atom>, reported: (Atom, Atom) -> bool,
                                  minImage: (Atom, Atom) -> real, direct: (Atom, Atom) -> real, cutoff: real)
    requires forall a, b :: minImage(a, b) <= direct(a, b)
    ensures Marked(atoms, CloseUnder(reported, direct, cutoff)) <= Marked(atoms, CloseUnder(reported, minImage, cutoff))
  {
    MarkedMonotone(atoms, CloseUnder(reported, direct, cutoff), CloseUnder(reported, minImage, cutoff));
  }

  /** The scripts never reject a non-positive cutoff; with one, distances
      being non-negative, nothing is removed. */
  lemma NonPositiveCutoffRemovesNothing(atoms: seq<Atom>, reported: (Atom, Atom) -> bool,
                                        distance: (Atom, Atom) -> real, cutoff: real)
    requires cutoff <= 0.0
    requires forall a, b :: distance(a, b) >= 0.0
    ensures RemoveClose(atoms, CloseUnder(reported, distance, cutoff)) == atoms
  {
    var close := CloseUnder(reported, distance, cutoff);
    forall j | 0 <= j < |atoms|
      ensures j !in Marked(atoms, close)
    {
      assert forall i :: 0 <= i < j ==> distance(atoms[i], atoms[j]) >= 0.0;
      assert forall i :: 0 <= i < j ==> !close(atoms[i], atoms[j]);
    }
    KeepNothingMarked(atoms, Marked(atoms, close));
  }
}
