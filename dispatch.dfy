/** What the builders do with the recipe table: which walls a menu choice
    processes, and, for one wall, the order in which slabs are cut,
    stacked, cleaned, replicated and written.

    Cutting and rotating a slab, stacking two slabs, the overlap clean-up
    and supercell replication act on ASE structures; here they are
    function parameters over an abstract structure type `S`, so that what
    is stated is which structure each output is made from. */
module Dispatch {
  import opened Common
  import opened Text
  import opened Recipes
  import UniquePath

  /** The structure the recipes of a family are applied to: the input, its
      pseudo-cubic setting (R3c) or its re-oriented frame for a polar axis
      (Pmc2_1). */
  datatype Base = InputStructure | PseudoCubic | PolarFrame(axis: string)

  /** One call of `process_slab`: family, base structure, the wall type's
      value (used in file names) and the wall's recipes. */
  datatype Job = Job(group: SpaceGroup, base: Base, angleType: string, recipes: seq<Recipe>)

  /** `angles_dict[angle]`: the recipes of the first entry with that key,
      or `None` where Python raises `KeyError`. */
  function Lookup(family: seq<WallEntry>, angle: DomainWallAngle): (r: Option<seq<Recipe>>)
    ensures r.Some? <==> angle in WallTypes(family)
    ensures r.Some? ==> exists t :: 0 <= t < |family| && family[t].angle == angle && family[t].recipes == r.value
  {
    if |family| == 0 then None
    else if family[0].angle == angle then Some(family[0].recipes)
    else
      var r := Lookup(family[1..], angle);
      assert r.Some? ==> exists t :: 1 <= t < |family| && family[t].angle == angle && family[t].recipes == r.value by {
        if r.Some? {
          var t :| 0 <= t < |family[1..]| && family[1..][t].angle == angle && family[1..][t].recipes == r.value;
          assert family[t + 1] == family[1..][t];
        }
      }
      assert WallTypes(family) == [family[0].angle] + WallTypes(family[1..]);
      r
  }

  /** The walls a choice processes: with `ALL` every entry of the family
      in key order, otherwise the one entry of the chosen type. */
  function WallJobs(g: SpaceGroup, base: Base, family: seq<WallEntry>, choice: DomainWallAngle): (r: Result<seq<Job>, RunError>)
    ensures choice == ALL ==>
      r.Ok? && |r.value| == |family| &&
      forall t :: 0 <= t < |family| ==> r.value[t] == Job(g, base, Value(family[t].angle), family[t].recipes)
    ensures choice != ALL ==> (r.Ok? <==> choice in WallTypes(family))
    ensures choice != ALL && r.Ok? ==> r.value == [Job(g, base, Value(choice), Lookup(family, choice).value)]
    ensures choice != ALL && r.Ok? ==>
      exists t :: 0 <= t < |family| && family[t].angle == choice && r.value[0].recipes == family[t].recipes
    ensures WellFormedFamily(family) && r.Ok? ==> forall job :: job in r.value ==> IsDomainPair(job.recipes)
  {
    if choice == ALL then
      var jobs := seq(|family|, t requires 0 <= t < |family| => Job(g, base, Value(family[t].angle), family[t].recipes));
      assert forall job :: job in jobs ==> exists t :: 0 <= t < |family| && job == jobs[t];
      Ok(jobs)
    else
      match Lookup(family, choice)
      case Some(recipes) => Ok([Job(g, base, Value(choice), recipes)])
      case None => Err(KeyError)
  }

  /** `prompt_polar_axis`: anything other than a, b or c becomes c. */
  function PolarAxis(text: string): (r: string)
    ensures r == "a" || r == "b" || r == "c"
    ensures text == "a" || text == "b" || text == "c" ==> r == text
    ensures !(text == "a" || text == "b" || text == "c") ==> r == "c"
  {
    if text == "a" || text == "b" || text == "c" then text else "c"
  }

  /** The dispatch in the domain-wall builder's `run` for the menu numbers
      1 to 5, and the fall-through for numbers that match no branch.
      Pnma always processes its FDW wall, whatever type was chosen. */
  function DomainWallJobs(selection: int, choice: DomainWallAngle, polar: string, d: real): (r: Result<seq<Job>, RunError>)
    ensures selection == 5 ==> r == Ok([Job(Pnma, InputStructure, "FDW", AnglesDict(d, Pnma).value[0].recipes)])
    ensures !(1 <= selection <= 5) ==> r == Ok([])
    ensures selection == 1 ==> r == WallJobs(R3c, PseudoCubic, AnglesDict(d, R3c).value, choice)
    ensures selection == 2 ==> r == WallJobs(R3m, InputStructure, AnglesDict(d, R3m).value, choice)
    ensures selection == 3 ==> r == WallJobs(P4mm, InputStructure, AnglesDict(d, P4mm).value, choice)
    ensures selection == 4 ==> r == WallJobs(Pmc2_1, PolarFrame(PolarAxis(polar)), AnglesDict(d, Pmc2_1).value, choice)
    ensures 1 <= selection <= 4 && choice == ALL ==>
      r.Ok? && |r.value| == |AnglesDict(d, SpaceGroupOrder[selection - 1]).value|
    ensures r.Ok? ==> forall job :: job in r.value ==> IsDomainPair(job.recipes)
  {
    if 1 <= selection <= 4 then
      var g := SpaceGroupOrder[selection - 1];
      var base := if selection == 1 then PseudoCubic
                  else if selection == 4 then PolarFrame(PolarAxis(polar))
                  else InputStructure;
      var family := AnglesDict(d, g).value;
      WallJobs(g, base, family, choice)
    else if selection == 5 then
      Ok([Job(Pnma, InputStructure, Value(FDW), AnglesDict(d, Pnma).value[0].recipes)])
    else
      Ok([])
  }

  /** The slab builder's `run` after the menu number has been read: the
      space group by Python indexing, the wall-type prompt, the table
      lookups, and the walls processed. Number 7 calls a method the class
      does not define, and number 6 offers plain strings to a prompt that
      reads `.value` from each. */
  function SlabJobs(selection: int, angleText: string, d: real): (r: Result<seq<Job>, RunError>)
    ensures selection == 7 || selection == 6 ==> r == Err(AttributeError)
    ensures selection < -5 || selection > 7 ==> r == Err(IndexError)
    ensures selection != 7 && -5 <= selection <= 6 && AngleOfValue(angleText).None? ==>
      r == Err(if selection == 6 then AttributeError else ValueError)
    ensures selection == 0 && AngleOfValue(angleText).Some? ==> r == Err(KeyError)
    ensures (1 <= selection <= 5 || -5 <= selection <= -1) && AngleOfValue(angleText).Some? ==>
      var g := SpaceGroupOfSelection(selection).value;
      g != P6_3cm && r == WallJobs(g, InputStructure, AnglesDict(d, g).value, AngleOfValue(angleText).value)
    ensures r.Ok? ==> (1 <= selection <= 5 || -5 <= selection <= -1)
    ensures r.Ok? ==> forall job :: job in r.value ==> IsDomainPair(job.recipes)
  {
    if selection == 7 then Err(AttributeError)
    else match SpaceGroupOfSelection(selection)
      case Err(e) => Err(e)
      case Ok(g) =>
        if selection == 6 then Err(AttributeError)
        else match AngleOfValue(angleText)
          case None => Err(ValueError)
          case Some(choice) =>
            match AnglesDict(d, g)
            case None => Err(KeyError)
            case Some(family) =>
              WallJobs(g, InputStructure, family, choice)
  }

  /** Python's truth value of `supercell_size`: given and non-empty. */
  predicate Truthy(size: Option<seq<int>>)
  {
    size.Some? && |size.value| > 0
  }

  /** `process_slab` of the domain-wall builder, for one wall. A fresh
      output directory is chosen; each recipe is cut into a slab; the two
      slabs are stacked along the FIRST recipe's axis and the stack is
      cleaned; each slab is cleaned and written as a domain file; the
      strain is measured between the uncleaned slabs; when a supercell
      size is given, the cleaned stack is replicated and cleaned again.
      Every name is chosen by `get_unique_path`; the directory starts empty
      and the four requested names differ, so each output gets the name
      asked for and no output overwrites another. */
  method ProcessSlab<S>(recipes: seq<Recipe>, angleType: string, group: string, cwd: set<string>,
                        supercellSize: Option<seq<int>>,
                        cutAndRotate: Recipe -> S, stack: (S, S, nat) -> S, clean: S -> S,
                        repeat: (S, seq<int>) -> S)
    returns (directory: string, written: seq<(string, S)>, strainPair: (S, S))
    requires IsDomainPair(recipes)
    ensures directory !in cwd
    ensures group + "_" + angleType !in cwd ==> directory == group + "_" + angleType
    ensures group + "_" + angleType in cwd ==>
      exists k :: 1 <= k && directory == UniquePath.FileCandidate(group + "_" + angleType, k) &&
        forall j :: 1 <= j < k ==> UniquePath.FileCandidate(group + "_" + angleType, j) in cwd
    ensures |written| == if Truthy(supercellSize) then 4 else 3
    ensures written[0].0 == angleType + "_stacked.vasp"
    ensures written[1].0 == DomainOutputName(angleType, 1, false) && written[2].0 == DomainOutputName(angleType, 2, false)
    ensures Truthy(supercellSize) ==> written[3].0 == angleType + "_supercell.vasp"
    ensures forall p, q :: 0 <= p < q < |written| ==> written[p].0 != written[q].0
    ensures written[0].1 == clean(stack(cutAndRotate(recipes[0]), cutAndRotate(recipes[1]), recipes[0].stackAxis))
    ensures written[1].1 == clean(cutAndRotate(recipes[0])) && written[2].1 == clean(cutAndRotate(recipes[1]))
    ensures strainPair == (cutAndRotate(recipes[0]), cutAndRotate(recipes[1]))
    ensures Truthy(supercellSize) ==> written[3].1 == clean(repeat(written[0].1, supercellSize.value))
  {
    directory := UniquePath.UniqueFileName(cwd, group + "_" + angleType);
    var present: set<string> := {};  // the new directory's entries

    var stackAxis := recipes[0].stackAxis;
    var slabs: seq<S> := [];
    for i := 0 to |recipes|
      invariant |slabs| == i
      invariant forall k :: 0 <= k < i ==> slabs[k] == cutAndRotate(recipes[k])
    {
      slabs := slabs + [cutAndRotate(recipes[i])];
    }
    var stacked := clean(stack(slabs[0], slabs[1], stackAxis));

    var stackedName := UniquePath.UniqueFileName(present, angleType + "_stacked.vasp");
    written := [(stackedName, stacked)];
    present := present + {stackedName};

    assert stackedName == angleType + "_stacked.vasp";
    for i := 0 to |slabs|
      invariant |written| == 1 + i
      invariant written[0] == (stackedName, stacked)
      invariant forall k :: 0 <= k < i ==> written[k + 1].1 == clean(slabs[k])
      invariant forall n :: 1 <= n <= i ==> written[n].0 == DomainOutputName(angleType, n, false)
      invariant forall x :: x in present ==>
        x == stackedName || exists n :: 1 <= n <= i && x == DomainOutputName(angleType, n, false)
    {
      var slab := clean(slabs[i]);
      var requested := angleType + "_domain" + NatToString(i + 1) + ".vasp";
      assert requested == DomainOutputName(angleType, i + 1, false);
      NextDomainNameFree(angleType, i, present);
      var slabName := UniquePath.UniqueFileName(present, requested);
      written := written + [(slabName, slab)];
      present := present + {slabName};
    }

    strainPair := (slabs[0], slabs[1]);

    if Truthy(supercellSize) {
      var supercell := clean(repeat(stacked, supercellSize.value));
      SupercellIsNoOtherOutput(angleType, 1);
      SupercellIsNoOtherOutput(angleType, 2);
      var supercellName := UniquePath.UniqueFileName(present, angleType + "_supercell.vasp");
      written := written + [(supercellName, supercell)];
    }
    OutputNamesDistinct(angleType);
  }

  /** The four names `process_slab` asks for are pairwise different. */
  lemma OutputNamesDistinct(angleType: string)
    ensures angleType + "_stacked.vasp" != DomainOutputName(angleType, 1, false)
    ensures angleType + "_stacked.vasp" != DomainOutputName(angleType, 2, false)
    ensures DomainOutputName(angleType, 1, false) != DomainOutputName(angleType, 2, false)
    ensures angleType + "_supercell.vasp" != angleType + "_stacked.vasp"
    ensures angleType + "_supercell.vasp" != DomainOutputName(angleType, 1, false)
    ensures angleType + "_supercell.vasp" != DomainOutputName(angleType, 2, false)
  {
    StackedIsNoDomainOutput(angleType, 1, false);
    StackedIsNoDomainOutput(angleType, 2, false);
    if DomainOutputName(angleType, 1, false) == DomainOutputName(angleType, 2, false) {
      DomainOutputNameInjective(angleType, 1, false, 2, false);
    }
    SupercellIsNoOtherOutput(angleType, 1);
    SupercellIsNoOtherOutput(angleType, 2);
  }

  /** The stacked slab's name is no per-domain name. */
  lemma StackedIsNoDomainOutput(angleType: string, n: nat, supercell: bool)
    ensures angleType + "_stacked.vasp" != DomainOutputName(angleType, n, supercell)
  {
    var i := |angleType| + 1;
    assert (angleType + "_stacked.vasp")[i] == 's';
    assert DomainOutputName(angleType, n, supercell)[i] == 'd';
  }

  /** Before domain `i + 1` is written, the directory holds the stacked
      slab and domains `1 .. i`; the name of domain `i + 1` is free. */
  lemma NextDomainNameFree(angleType: string, i: nat, present: set<string>)
    requires forall x :: x in present ==>
      x == angleType + "_stacked.vasp" || exists n :: 1 <= n <= i && x == DomainOutputName(angleType, n, false)
    ensures DomainOutputName(angleType, i + 1, false) !in present
  {
    var next := DomainOutputName(angleType, i + 1, false);
    StackedIsNoDomainOutput(angleType, i + 1, false);
    if next in present {
      var n :| 1 <= n <= i && next == DomainOutputName(angleType, n, false);
      DomainOutputNameInjective(angleType, i + 1, false, n, false);
    }
  }

  /** The supercell's name is neither the stacked slab's name nor a plain
      per-domain name. */
  lemma SupercellIsNoOtherOutput(angleType: string, n: nat)
    ensures angleType + "_supercell.vasp" != angleType + "_stacked.vasp"
    ensures angleType + "_supercell.vasp" != DomainOutputName(angleType, n, false)
  {
    var i := |angleType| + 1;
    assert (angleType + "_supercell.vasp")[i + 1] == 'u';
    assert (angleType + "_stacked.vasp")[i + 1] == 't';
    assert DomainOutputName(angleType, n, false)[i] == 'd';
  }

  /** The name of a per-domain output of the slab builder. */
  function DomainOutputName(angleType: string, n: nat, supercell: bool): string
  {
    angleType + "_domain" + NatToString(n) + (if supercell then "_supercell.vasp" else ".vasp")
  }

  /** Two digit strings followed by suffixes that start with a non-digit
      can only give the same text if digits and suffixes agree. */
  lemma {:induction false} DigitsThenSuffix(d1: string, s1: string, d2: string, s2: string)
    requires AllDigits(d1) && AllDigits(d2)
    requires |s1| > 0 && |s2| > 0 && !IsDigit(s1[0]) && !IsDigit(s2[0])
    requires d1 + s1 == d2 + s2
    ensures d1 == d2 && s1 == s2
  {
    var m := if |d1| <= |d2| then |d1| else |d2|;
    var c1, c2 := (d1 + s1)[m], (d2 + s2)[m];
    assert m < |d1| ==> IsDigit(c1);
    assert m == |d1| ==> !IsDigit(c1);
    assert m < |d2| ==> IsDigit(c2);
    assert m == |d2| ==> !IsDigit(c2);
    assert d1 == (d1 + s1)[..|d1|];
    assert d2 == (d2 + s2)[..|d2|];
    assert s1 == (d1 + s1)[|d1|..];
    assert s2 == (d2 + s2)[|d2|..];
  }

  /** Equal texts with the same beginning have the same rest. */
  lemma SameRest(prefix: string, r1: string, r2: string)
    requires prefix + r1 == prefix + r2
    ensures r1 == r2
  {
    assert r1 == (prefix + r1)[|prefix|..];
    assert r2 == (prefix + r2)[|prefix|..];
  }

  lemma Regroup(prefix: string, digits: string, suffix: string)
    ensures prefix + digits + suffix == prefix + (digits + suffix)
  {
  }

  /** Distinct per-domain outputs have distinct names. */
  lemma DomainOutputNameInjective(angleType: string, m: nat, a: bool, n: nat, b: bool)
    requires DomainOutputName(angleType, m, a) == DomainOutputName(angleType, n, b)
    ensures m == n && a == b
  {
    var prefix := angleType + "_domain";
    var sa: string := if a then "_supercell.vasp" else ".vasp";
    var sb: string := if b then "_supercell.vasp" else ".vasp";
    Regroup(prefix, NatToString(m), sa);
    Regroup(prefix, NatToString(n), sb);
    SameRest(prefix, NatToString(m) + sa, NatToString(n) + sb);
    DigitsThenSuffix(NatToString(m), sa, NatToString(n), sb);
    assert |sa| == |sb|;
    NatToStringInjective(m, n);
  }

  /** `process_slab` of the slab builder: for each recipe in order, the
      cleaned slab is written as domain `i + 1`, followed, when a supercell
      size is given, by its cleaned replication. Names are fixed, so
      existing files are overwritten. */
  method ProcessDomainSlabs<S>(recipes: seq<Recipe>, angleType: string, supercellSize: Option<seq<int>>,
                               cutAndRotate: Recipe -> S, clean: S -> S, repeat: (S, seq<int>) -> S)
    returns (written: seq<(string, S)>)
    ensures !Truthy(supercellSize) ==>
      |written| == |recipes| &&
      forall i :: 0 <= i < |recipes| ==>
        written[i] == (DomainOutputName(angleType, i + 1, false), clean(cutAndRotate(recipes[i])))
    ensures Truthy(supercellSize) ==>
      |written| == 2 * |recipes| &&
      forall i :: 0 <= i < |recipes| ==>
        && written[2 * i] == (DomainOutputName(angleType, i + 1, false), clean(cutAndRotate(recipes[i])))
        && written[2 * i + 1] == (DomainOutputName(angleType, i + 1, true),
                                  clean(repeat(clean(cutAndRotate(recipes[i])), supercellSize.value)))
  {
    written := [];
    for i := 0 to |recipes|
      invariant |written| == if Truthy(supercellSize) then 2 * i else i
      invariant !Truthy(supercellSize) ==> forall k :: 0 <= k < i ==>
        written[k] == (DomainOutputName(angleType, k + 1, false), clean(cutAndRotate(recipes[k])))
      invariant Truthy(supercellSize) ==> forall k :: 0 <= k < i ==>
        && written[2 * k] == (DomainOutputName(angleType, k + 1, false), clean(cutAndRotate(recipes[k])))
        && written[2 * k + 1] == (DomainOutputName(angleType, k + 1, true),
                                  clean(repeat(clean(cutAndRotate(recipes[k])), supercellSize.value)))
    {
      var slab := clean(cutAndRotate(recipes[i]));
      written := written + [(DomainOutputName(angleType, i + 1, false), slab)];
      if Truthy(supercellSize) {
        var supercell := clean(repeat(slab, supercellSize.value));
        written := written + [(DomainOutputName(angleType, i + 1, true), supercell)];
      }
    }
  }
}
