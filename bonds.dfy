/** Bond bookkeeping of the bonding analysis: neighbour pairs within the
    cutoff are grouped under the sorted pair of their element symbols, in
    two dictionaries that grow in lockstep; the extreme bond types are
    picked from the flattened lengths; two structures are compared by
    their bond-type sets. The neighbour list itself is foreign: its pairs,
    with their symbols and minimum-image distances, are the input. */
module Bonds {
  import opened Common
  import Strain

  // ---------------------------------------------------------------------
  // Python's ordering of strings, and the canonical key of a pair

  /** `a <= b` for Python strings: lexicographic by code point. */
  predicate StrLe(a: string, b: string)
    decreases |a|
  {
    |a| == 0 || (|b| > 0 && (a[0] < b[0] || (a[0] == b[0] && StrLe(a[1..], b[1..]))))
  }

  lemma {:induction false} StrLeTotal(a: string, b: string)
    ensures StrLe(a, b) || StrLe(b, a)
    decreases |a|
  {
    if |a| > 0 && |b| > 0 && a[0] == b[0] {
      StrLeTotal(a[1..], b[1..]);
    }
  }

  lemma {:induction false} StrLeAntisymmetric(a: string, b: string)
    requires StrLe(a, b) && StrLe(b, a)
    ensures a == b
    decreases |a|
  {
    if |a| > 0 {
      StrLeAntisymmetric(a[1..], b[1..]);
      assert a == [a[0]] + a[1..] && b == [b[0]] + b[1..];
    }
  }

  /** A bond type: two element symbols in ascending order. */
  datatype BondType = BondType(first: string, second: string)

  /** `tuple(sorted([elem1, elem2]))`. */
  function SortedPair(elem1: string, elem2: string): (k: BondType)
    ensures multiset{k.first, k.second} == multiset{elem1, elem2}
    ensures StrLe(k.first, k.second)
  {
    StrLeTotal(elem1, elem2);
    if StrLe(elem1, elem2) then BondType(elem1, elem2) else BondType(elem2, elem1)
  }

  /** The key does not depend on which atom of the pair comes first. */
  lemma SortedPairSymmetric(elem1: string, elem2: string)
    ensures SortedPair(elem1, elem2) == SortedPair(elem2, elem1)
  {
    if StrLe(elem1, elem2) && StrLe(elem2, elem1) {
      StrLeAntisymmetric(elem1, elem2);
    }
  }

  // ---------------------------------------------------------------------
  // `determine_bonding`

  /** One entry of the neighbour list: atom indices, their symbols and
      the minimum-image distance. */
  datatype Pair = Pair(i: nat, j: nat, elem1: string, elem2: string, distance: real)

  /** What `bond_dict` stores for a recorded pair. */
  datatype Bond = Bond(i: nat, j: nat, elem1: string, elem2: string)

  function Key(p: Pair): BondType
  {
    SortedPair(p.elem1, p.elem2)
  }

  /** Only pairs within the cutoff, inclusive, are recorded. */
  predicate Recorded(p: Pair, cutoff: real)
  {
    p.distance <= cutoff
  }

  /** The recorded pairs among the first `n` of the list, in list order. */
  function RecordedPairs(pairs: seq<Pair>, n: nat, cutoff: real): seq<Pair>
    requires n <= |pairs|
  {
    if n == 0 then []
    else RecordedPairs(pairs, n - 1, cutoff) + (if Recorded(pairs[n - 1], cutoff) then [pairs[n - 1]] else [])
  }

  /** The recorded pairs with key `k` among the first `n`, in list order. */
  function Group(pairs: seq<Pair>, n: nat, cutoff: real, k: BondType): seq<Pair>
    requires n <= |pairs|
  {
    if n == 0 then []
    else
      var p := pairs[n - 1];
      Group(pairs, n - 1, cutoff, k) + (if Recorded(p, cutoff) && Key(p) == k then [p] else [])
  }

  /** The keys of the dictionaries in insertion order after the first `n`
      pairs: each key where its first recorded pair occurs. */
  function KeyOrder(pairs: seq<Pair>, n: nat, cutoff: real): seq<BondType>
    requires n <= |pairs|
  {
    if n == 0 then []
    else
      var p := pairs[n - 1];
      var keys := KeyOrder(pairs, n - 1, cutoff);
      if Recorded(p, cutoff) && Key(p) !in keys then keys + [Key(p)] else keys
  }

  function BondOf(p: Pair): Bond
  {
    Bond(p.i, p.j, p.elem1, p.elem2)
  }

  function Distance(p: Pair): real
  {
    p.distance
  }

  /** What `f` gives each pair, in order. */
  function Mapped<V>(ps: seq<Pair>, f: Pair -> V): (r: seq<V>)
    ensures |r| == |ps| && forall n :: 0 <= n < |ps| ==> r[n] == f(ps[n])
  {
    seq(|ps|, n requires 0 <= n < |ps| => f(ps[n]))
  }

  function BondsOf(ps: seq<Pair>): seq<Bond>
  {
    Mapped(ps, BondOf)
  }

  function LengthsOf(ps: seq<Pair>): seq<real>
  {
    Mapped(ps, Distance)
  }

  /** A dictionary filled like a `defaultdict(list)`: after the first `n`
      pairs, each recorded pair has appended `f` of itself to the list
      under its key, which starts empty. */
  function Grouped<V>(pairs: seq<Pair>, n: nat, cutoff: real, f: Pair -> V): map<BondType, seq<V>>
    requires n <= |pairs|
  {
    if n == 0 then map[]
    else
      var d := Grouped(pairs, n - 1, cutoff, f);
      var p := pairs[n - 1];
      if Recorded(p, cutoff) then d[Key(p) := (if Key(p) in d then d[Key(p)] else []) + [f(p)]] else d
  }

  /** `sum(len(bonds) for bonds in bond_dict.values())`, the values taken
      in the order of `keys`, which lists the dictionary's keys; a listed
      key missing from the dictionary would count nothing. */
  function Total(keys: seq<BondType>, bondDict: map<BondType, seq<Bond>>): nat
  {
    if |keys| == 0 then 0
    else
      var k := keys[|keys| - 1];
      Total(keys[..|keys| - 1], bondDict) + (if k in bondDict then |bondDict[k]| else 0)
  }

  predicate Distinct<T(==)>(xs: seq<T>)
  {
    forall a, b :: 0 <= a < b < |xs| ==> xs[a] != xs[b]
  }

  /** A key is listed exactly when some recorded pair has it, and once. */
  lemma {:induction false} KeyOrderSpec(pairs: seq<Pair>, n: nat, cutoff: real)
    requires n <= |pairs|
    ensures Distinct(KeyOrder(pairs, n, cutoff))
    ensures forall k :: k in KeyOrder(pairs, n, cutoff) <==> |Group(pairs, n, cutoff, k)| > 0
  {
    if n > 0 {
      KeyOrderSpec(pairs, n - 1, cutoff);
      var keys := KeyOrder(pairs, n - 1, cutoff);
      var p := pairs[n - 1];
      forall k
        ensures k in KeyOrder(pairs, n, cutoff) <==> |Group(pairs, n, cutoff, k)| > 0
      {
        assert k in KeyOrder(pairs, n, cutoff) <==> k in keys || (Recorded(p, cutoff) && Key(p) == k);
      }
      if Recorded(p, cutoff) && Key(p) !in keys {
        assert forall a :: 0 <= a < |keys| ==> keys[a] != Key(p);
      }
    }
  }

  /** A dictionary filled pair by pair holds under each key that key's
      group, and has exactly the keys whose group is not empty. */
  lemma {:induction false} GroupedSpec<V>(pairs: seq<Pair>, n: nat, cutoff: real, f: Pair -> V)
    requires n <= |pairs|
    ensures forall k :: k in Grouped(pairs, n, cutoff, f) <==> |Group(pairs, n, cutoff, k)| > 0
    ensures forall k :: k in Grouped(pairs, n, cutoff, f) ==>
      Grouped(pairs, n, cutoff, f)[k] == Mapped(Group(pairs, n, cutoff, k), f)
  {
    if n > 0 {
      GroupedSpec(pairs, n - 1, cutoff, f);
      var d := Grouped(pairs, n - 1, cutoff, f);
      var p := pairs[n - 1];
      forall k
        ensures k in Grouped(pairs, n, cutoff, f) <==> |Group(pairs, n, cutoff, k)| > 0
        ensures k in Grouped(pairs, n, cutoff, f) ==>
          Grouped(pairs, n, cutoff, f)[k] == Mapped(Group(pairs, n, cutoff, k), f)
      {
        var g := Group(pairs, n - 1, cutoff, k);
        if Recorded(p, cutoff) && Key(p) == k {
          MappedAppend(g, p, f);
          if k !in d {
            assert g == [];
            assert [] + [f(p)] == [f(p)];
          }
        } else {
          assert g + [] == g;
        }
      }
    }
  }

  /** The keys of a dictionary filled pair by pair are those of the key
      order. */
  lemma KeyOrderIsDomain<V>(pairs: seq<Pair>, n: nat, cutoff: real, f: Pair -> V)
    requires n <= |pairs|
    ensures forall k :: k in Grouped(pairs, n, cutoff, f) <==> k in KeyOrder(pairs, n, cutoff)
  {
    GroupedSpec(pairs, n, cutoff, f);
    KeyOrderSpec(pairs, n, cutoff);
  }

  /** No key is listed twice. */
  lemma KeyOrderDistinct(pairs: seq<Pair>, n: nat, cutoff: real)
    requires n <= |pairs|
    ensures Distinct(KeyOrder(pairs, n, cutoff))
  {
    KeyOrderSpec(pairs, n, cutoff);
  }

  /** The number of bonds over all keys is the number of recorded pairs. */
  lemma {:induction false} TotalRecorded(pairs: seq<Pair>, n: nat, cutoff: real)
    requires n <= |pairs|
    ensures Total(KeyOrder(pairs, n, cutoff), Grouped(pairs, n, cutoff, BondOf)) == |RecordedPairs(pairs, n, cutoff)|
  {
    if n > 0 {
      TotalRecorded(pairs, n - 1, cutoff);
      if Recorded(pairs[n - 1], cutoff) {
        var keys, d := KeyOrder(pairs, n - 1, cutoff), Grouped(pairs, n - 1, cutoff, BondOf);
        var p := pairs[n - 1];
        KeyOrderIsDomain(pairs, n - 1, cutoff, BondOf);
        KeyOrderDistinct(pairs, n - 1, cutoff);
        TotalAfterRecord(keys, d, Key(p), BondOf(p),
                         KeyOrder(pairs, n, cutoff), Grouped(pairs, n, cutoff, BondOf));
      } else {
        assert RecordedPairs(pairs, n, cutoff) == RecordedPairs(pairs, n - 1, cutoff) + [];
      }
    }
  }

  /** Appending a bond under a key, listing the key first if it is new,
      adds one to the total. */
  lemma TotalAfterRecord(keys: seq<BondType>, bondDict: map<BondType, seq<Bond>>, k: BondType, b: Bond,
                         keys': seq<BondType>, bondDict': map<BondType, seq<Bond>>)
    requires Distinct(keys)
    requires forall x :: x in keys <==> x in bondDict
    requires keys' == if k in keys then keys else keys + [k]
    requires bondDict' == bondDict[k := (if k in bondDict then bondDict[k] else []) + [b]]
    ensures Total(keys', bondDict') == Total(keys, bondDict) + 1
  {
    if k in keys {
      TotalAfterAppend(keys, bondDict, k, b);
    } else {
      assert [] + [b] == [b];
      TotalAfterNewKey(keys, bondDict, k, b);
    }
  }

  /** Listing a new key with one bond adds one to the total. */
  lemma TotalAfterNewKey(keys: seq<BondType>, bondDict: map<BondType, seq<Bond>>, k: BondType, b: Bond)
    requires forall x :: x in keys ==> x in bondDict
    requires k !in keys
    ensures Total(keys + [k], bondDict[k := [b]]) == Total(keys, bondDict) + 1
  {
    TotalIgnoresOtherKeys(keys, bondDict, k, [b]);
    assert (keys + [k])[..|keys|] == keys;
  }

  /** The key list and the two dictionaries, filled pair by pair. */
  method DetermineBonding(pairs: seq<Pair>, cutoff: real)
    returns (keys: seq<BondType>, bondDict: map<BondType, seq<Bond>>, lengthDict: map<BondType, seq<real>>)
    ensures keys == KeyOrder(pairs, |pairs|, cutoff)
    ensures bondDict == Grouped(pairs, |pairs|, cutoff, BondOf)
    ensures lengthDict == Grouped(pairs, |pairs|, cutoff, Distance)
    ensures forall k :: k in bondDict <==> k in keys
    ensures forall k :: k in lengthDict <==> k in keys
    ensures forall k :: k in keys ==>
      bondDict[k] == BondsOf(Group(pairs, |pairs|, cutoff, k)) && lengthDict[k] == LengthsOf(Group(pairs, |pairs|, cutoff, k))
    ensures forall k :: k in keys ==> |bondDict[k]| == |lengthDict[k]| > 0
    ensures Total(keys, bondDict) == |RecordedPairs(pairs, |pairs|, cutoff)|
  {
    keys, bondDict, lengthDict := [], map[], map[];
    for n := 0 to |pairs|
      invariant keys == KeyOrder(pairs, n, cutoff)
      invariant bondDict == Grouped(pairs, n, cutoff, BondOf)
      invariant lengthDict == Grouped(pairs, n, cutoff, Distance)
    {
      var p := pairs[n];
      if p.distance <= cutoff {
        var k := SortedPair(p.elem1, p.elem2);
        KeyOrderIsDomain(pairs, n, cutoff, BondOf);
        if k !in bondDict {
          keys := keys + [k];
        }
        bondDict := bondDict[k := (if k in bondDict then bondDict[k] else []) + [BondOf(p)]];
        lengthDict := lengthDict[k := (if k in lengthDict then lengthDict[k] else []) + [p.distance]];
      }
    }
    GroupingFacts(pairs, |pairs|, cutoff);
  }

  /** What the grouped dictionaries after `n` pairs hold: the listed keys
      are both domains, each key maps to the bonds and the lengths of its
      group in order, and the lists add up to the recorded pairs. */
  lemma GroupingFacts(pairs: seq<Pair>, n: nat, cutoff: real)
    requires n <= |pairs|
    ensures var keys, bondDict, lengthDict :=
        KeyOrder(pairs, n, cutoff), Grouped(pairs, n, cutoff, BondOf), Grouped(pairs, n, cutoff, Distance);
      && (forall k :: k in bondDict <==> k in keys)
      && (forall k :: k in lengthDict <==> k in keys)
      && (forall k :: k in keys ==>
            bondDict[k] == BondsOf(Group(pairs, n, cutoff, k)) && lengthDict[k] == LengthsOf(Group(pairs, n, cutoff, k)))
      && (forall k :: k in keys ==> |bondDict[k]| == |lengthDict[k]| > 0)
      && Total(keys, bondDict) == |RecordedPairs(pairs, n, cutoff)|
  {
    KeyOrderSpec(pairs, n, cutoff);
    GroupedSpec(pairs, n, cutoff, BondOf);
    GroupedSpec(pairs, n, cutoff, Distance);
    TotalRecorded(pairs, n, cutoff);
  }

  /** Appending a pair appends its value. */
  lemma MappedAppend<V>(ps: seq<Pair>, p: Pair, f: Pair -> V)
    ensures Mapped(ps + [p], f) == Mapped(ps, f) + [f(p)]
  {
  }

  /** Changing a key outside the list leaves the total alone. */
  lemma TotalIgnoresOtherKeys(keys: seq<BondType>, bondDict: map<BondType, seq<Bond>>, k: BondType, bonds: seq<Bond>)
    requires forall x :: x in keys ==> x in bondDict
    requires k !in keys
    ensures Total(keys, bondDict[k := bonds]) == Total(keys, bondDict)
  {
    TotalPointwise(keys, bondDict, bondDict[k := bonds]);
  }

  lemma {:induction false} TotalPointwise(keys: seq<BondType>, d1: map<BondType, seq<Bond>>, d2: map<BondType, seq<Bond>>)
    requires forall x :: x in keys ==> x in d1 && x in d2 && |d1[x]| == |d2[x]|
    ensures Total(keys, d1) == Total(keys, d2)
  {
    if |keys| > 0 {
      TotalPointwise(keys[..|keys| - 1], d1, d2);
    }
  }

  /** Appending one bond under a listed key adds one to the total. */
  lemma {:induction false} TotalAfterAppend(keys: seq<BondType>, bondDict: map<BondType, seq<Bond>>, k: BondType, b: Bond)
    requires forall x :: x in keys ==> x in bondDict
    requires Distinct(keys) && k in keys
    ensures Total(keys, bondDict[k := bondDict[k] + [b]]) == Total(keys, bondDict) + 1
  {
    var last := keys[|keys| - 1];
    var front := keys[..|keys| - 1];
    var d := bondDict[k := bondDict[k] + [b]];
    if last == k {
      assert k !in front by {
        assert forall a :: 0 <= a < |front| ==> front[a] == keys[a];
      }
      TotalIgnoresOtherKeys(front, bondDict, k, bondDict[k] + [b]);
    } else {
      assert k in front by {
        var a :| 0 <= a < |keys| && keys[a] == k;
        assert front[a] == k;
      }
      TotalAfterAppend(front, bondDict, k, b);
    }
  }

  // ---------------------------------------------------------------------
  // `analyze_bond_statistics`: which bond types hold the extreme lengths

  /** The lengths in dictionary iteration order, tagged with their key:
      the order of `all_bond_lengths` and of the nested loop. */
  function Entries(keys: seq<BondType>, lengthDict: map<BondType, seq<real>>): seq<(BondType, real)>
    requires forall k :: k in keys ==> k in lengthDict
  {
    if |keys| == 0 then []
    else Entries(keys[..|keys| - 1], lengthDict) + Tagged(keys[|keys| - 1], lengthDict[keys[|keys| - 1]])
  }

  function Tagged(k: BondType, lengths: seq<real>): (r: seq<(BondType, real)>)
    ensures |r| == |lengths| && forall n :: 0 <= n < |lengths| ==> r[n] == (k, lengths[n])
  {
    seq(|lengths|, n requires 0 <= n < |lengths| => (k, lengths[n]))
  }

  /** `np.min` of the lengths. */
  function MinLength(es: seq<(BondType, real)>): (m: real)
    requires |es| > 0
    ensures exists n :: 0 <= n < |es| && es[n].1 == m
    ensures forall n :: 0 <= n < |es| ==> m <= es[n].1
  {
    if |es| == 1 then es[0].1
    else
      var rest := MinLength(es[1..]);
      assert forall n :: 1 <= n < |es| ==> es[1..][n - 1] == es[n];
      if es[0].1 <= rest then es[0].1 else rest
  }

  /** `np.max` of the lengths. */
  function MaxLength(es: seq<(BondType, real)>): (m: real)
    requires |es| > 0
    ensures exists n :: 0 <= n < |es| && es[n].1 == m
    ensures forall n :: 0 <= n < |es| ==> es[n].1 <= m
  {
    if |es| == 1 then es[0].1
    else
      var rest := MaxLength(es[1..]);
      assert forall n :: 1 <= n < |es| ==> es[1..][n - 1] == es[n];
      if es[0].1 >= rest then es[0].1 else rest
  }

  /** The key of the last entry whose length equals `v`, if any. */
  function LastWith(es: seq<(BondType, real)>, v: real): Option<BondType>
  {
    if |es| == 0 then None
    else if es[|es| - 1].1 == v then Some(es[|es| - 1].0)
    else LastWith(es[..|es| - 1], v)
  }

  /** `LastWith` finds nothing exactly when no entry has length `v`, and
      otherwise names the key of an entry with that length that no later
      entry matches. */
  lemma {:induction false} LastWithSpec(es: seq<(BondType, real)>, v: real)
    ensures LastWith(es, v).None? <==> forall n :: 0 <= n < |es| ==> es[n].1 != v
    ensures LastWith(es, v).Some? ==>
      exists n :: 0 <= n < |es| && es[n] == (LastWith(es, v).value, v) &&
        forall m :: n < m < |es| ==> es[m].1 != v
  {
    if |es| > 0 {
      var last := |es| - 1;
      if es[last].1 == v {
        assert es[last] == (LastWith(es, v).value, v);
      } else {
        var front := es[..last];
        var r := LastWith(front, v);
        assert LastWith(es, v) == r;
        LastWithSpec(front, v);
        assert forall n :: 0 <= n < last ==> front[n] == es[n];
        if r.Some? {
          var n :| 0 <= n < last && front[n] == (r.value, v) && forall m :: n < m < last ==> front[m].1 != v;
          assert es[n] == (r.value, v);
        }
      }
    }
  }

  /** One more entry: it wins when its length is `v`. */
  lemma LastWithAppend(es: seq<(BondType, real)>, e: (BondType, real), v: real)
    ensures LastWith(es + [e], v) == if e.1 == v then Some(e.0) else LastWith(es, v)
  {
    assert (es + [e])[..|es|] == es;
  }

  /** The entries of one more key are its tagged lengths. */
  lemma EntriesStep(keys: seq<BondType>, lengthDict: map<BondType, seq<real>>, t: nat)
    requires t < |keys|
    requires forall k :: k in keys ==> k in lengthDict
    ensures Entries(keys[..t + 1], lengthDict) == Entries(keys[..t], lengthDict) + Tagged(keys[t], lengthDict[keys[t]])
  {
    assert keys[..t + 1][..t] == keys[..t];
  }

  /** Tagging one more length appends one entry. */
  lemma TaggedStep(k: BondType, lengths: seq<real>, m: nat)
    requires m < |lengths|
    ensures Tagged(k, lengths[..m + 1]) == Tagged(k, lengths[..m]) + [(k, lengths[m])]
  {
  }

  /** The shortest and longest bond types, as the nested loop leaves
      them: for each extreme, the key of the last length equal to it.
      With no bonds at all, `np.min` raises `ValueError`. */
  method ExtremeBondTypes(keys: seq<BondType>, lengthDict: map<BondType, seq<real>>)
    returns (r: Result<(BondType, BondType), RunError>)
    requires forall k :: k in keys ==> k in lengthDict
    ensures r.Err? <==> |Entries(keys, lengthDict)| == 0
    ensures r.Err? ==> r.error == ValueError
    ensures r.Ok? ==>
      var es := Entries(keys, lengthDict);
      Some(r.value.0) == LastWith(es, MinLength(es)) && Some(r.value.1) == LastWith(es, MaxLength(es))
  {
    var all := Entries(keys, lengthDict);
    if |all| == 0 {
      return Err(ValueError);
    }
    var shortestLength, longestLength := MinLength(all), MaxLength(all);
    var shortest: Option<BondType> := None;
    var longest: Option<BondType> := None;
    ghost var seen: seq<(BondType, real)> := [];
    for t := 0 to |keys|
      invariant seen == Entries(keys[..t], lengthDict)
      invariant shortest == LastWith(seen, shortestLength) && longest == LastWith(seen, longestLength)
    {
      var lengths := lengthDict[keys[t]];
      EntriesStep(keys, lengthDict, t);
      ghost var before := seen;
      for m := 0 to |lengths|
        invariant seen == before + Tagged(keys[t], lengths[..m])
        invariant shortest == LastWith(seen, shortestLength) && longest == LastWith(seen, longestLength)
      {
        TaggedStep(keys[t], lengths, m);
        LastWithAppend(seen, (keys[t], lengths[m]), shortestLength);
        LastWithAppend(seen, (keys[t], lengths[m]), longestLength);
        seen := seen + [(keys[t], lengths[m])];
        if lengths[m] == shortestLength {
          shortest := Some(keys[t]);
        }
        if lengths[m] == longestLength {
          longest := Some(keys[t]);
        }
      }
      assert lengths[..|lengths|] == lengths;
    }
    assert keys[..|keys|] == keys;
    LastWithSpec(all, shortestLength);
    LastWithSpec(all, longestLength);
    r := Ok((shortest.value, longest.value));
  }

  // ---------------------------------------------------------------------
  // `compare_bond_lengths`

  /** The three bond-type sets of a comparison. */
  function CommonTypes<V>(d1: map<BondType, V>, d2: map<BondType, V>): set<BondType>
  {
    d1.Keys * d2.Keys
  }

  /** Common, only-in-1 and only-in-2 are pairwise disjoint and together
      make up every bond type of either structure. */
  lemma BondTypesPartition<V>(d1: map<BondType, V>, d2: map<BondType, V>)
    ensures CommonTypes(d1, d2) !! (d1.Keys - d2.Keys)
    ensures CommonTypes(d1, d2) !! (d2.Keys - d1.Keys)
    ensures (d1.Keys - d2.Keys) !! (d2.Keys - d1.Keys)
    ensures CommonTypes(d1, d2) + (d1.Keys - d2.Keys) + (d2.Keys - d1.Keys) == d1.Keys + d2.Keys
  {
  }

  /** `(l2 - l1) / l1 * 100` on one pair of lengths; a zero first length
      gives a non-finite value, written `None`. */
  function PercentChange(l1: real, l2: real): (r: Option<real>)
    ensures r.None? <==> l1 == 0.0
    ensures l1 > 0.0 ==> r == Some(Strain.LinearStrain(l2, l1))
  {
    if l1 == 0.0 then None else Some((l2 - l1) / l1 * 100.0)
  }

  /** The element-wise change of two length arrays under numpy
      broadcasting: equal lengths pair up, a single length pairs with
      every length of the other side, anything else raises. */
  function Changes(lengths1: seq<real>, lengths2: seq<real>): (r: Option<seq<Option<real>>>)
    ensures r.Some? <==> |lengths1| == |lengths2| || |lengths1| == 1 || |lengths2| == 1
    ensures r.Some? && |lengths1| == |lengths2| ==>
      |r.value| == |lengths1| && forall n :: 0 <= n < |lengths1| ==> r.value[n] == PercentChange(lengths1[n], lengths2[n])
    ensures r.Some? && |lengths1| == 1 ==>
      |r.value| == |lengths2| && forall n :: 0 <= n < |lengths2| ==> r.value[n] == PercentChange(lengths1[0], lengths2[n])
    ensures r.Some? && |lengths2| == 1 ==>
      |r.value| == |lengths1| && forall n :: 0 <= n < |lengths1| ==> r.value[n] == PercentChange(lengths1[n], lengths2[0])
  {
    if |lengths1| == |lengths2| then
      Some(seq(|lengths1|, n requires 0 <= n < |lengths1| => PercentChange(lengths1[n], lengths2[n])))
    else if |lengths1| == 1 then
      Some(seq(|lengths2|, n requires 0 <= n < |lengths2| => PercentChange(lengths1[0], lengths2[n])))
    else if |lengths2| == 1 then
      Some(seq(|lengths1|, n requires 0 <= n < |lengths1| => PercentChange(lengths1[n], lengths2[0])))
    else None
  }

  /** `bond_length_changes`: one entry per common bond type, filled in
      whatever order the set yields; `ValueError` when the lengths of
      some common type do not broadcast. */
  method CompareBondLengths(lengthDict1: map<BondType, seq<real>>, lengthDict2: map<BondType, seq<real>>)
    returns (r: Result<map<BondType, seq<Option<real>>>, RunError>)
    ensures r.Err? <==> exists k :: k in CommonTypes(lengthDict1, lengthDict2) && Changes(lengthDict1[k], lengthDict2[k]).None?
    ensures r.Err? ==> r.error == ValueError
    ensures r.Ok? ==>
      r.value.Keys == CommonTypes(lengthDict1, lengthDict2) &&
      forall k :: k in r.value ==> Some(r.value[k]) == Changes(lengthDict1[k], lengthDict2[k])
  {
    var common := lengthDict1.Keys * lengthDict2.Keys;
    var changes: map<BondType, seq<Option<real>>> := map[];
    var remaining := common;
    while remaining != {}
      invariant remaining <= common
      invariant changes.Keys == common - remaining
      invariant forall k :: k in changes ==> Some(changes[k]) == Changes(lengthDict1[k], lengthDict2[k])
      decreases |remaining|
    {
      var k :| k in remaining;
      var change := Changes(lengthDict1[k], lengthDict2[k]);
      if change.None? {
        return Err(ValueError);
      }
      changes := changes[k := change.value];
      remaining := remaining - {k};
    }
    r := Ok(changes);
  }
}
