/** The order of stages in the two single-run scripts: the heterostructure
    interface builder and the rotated-bulk builder. Slabs come from a
    foreign cut-and-rotate and are given; stacking and the overlap
    clean-up (`remove_close_atoms`, see module Overlap) are parameters. */
module Stages {
  import UniquePath

  /** The heterostructure builder's `main` after both slabs are cut:
      a fresh `HIS` directory; both bulk slabs saved; the stack along the
      chosen axis saved before and after the clean-up; strain measured on
      the two uncleaned bulk slabs. */
  method BuildInterface<S>(taken: set<string>, hisPath: string, slab1: S, slab2: S, axis: int,
                           stack: (S, S, int) -> S, clean: S -> S)
    returns (directory: string, written: seq<(string, S)>, strainPair: (S, S))
    ensures directory !in taken
    ensures hisPath !in taken ==> directory == hisPath
    ensures written == [("bulk1.vasp", slab1), ("bulk2.vasp", slab2),
                        ("interface.vasp", stack(slab1, slab2, axis)),
                        ("interface_cleaned.vasp", clean(stack(slab1, slab2, axis)))]
    ensures strainPair == (slab1, slab2)
  {
    directory := UniquePath.UniqueDirectory(taken, hisPath);
    written := [("bulk1.vasp", slab1)];
    written := written + [("bulk2.vasp", slab2)];
    var slab := stack(slab1, slab2, axis);
    written := written + [("interface.vasp", slab)];
    slab := clean(slab);
    written := written + [("interface_cleaned.vasp", slab)];
    strainPair := (slab1, slab2);
  }

  /** The rotated-bulk builder's `main` after the slab is cut: a fresh
      `RotationMatrix` directory; the slab saved before and after the
      clean-up; then the cleaned slab's strain against itself. */
  method BuildRotatedBulk<S>(taken: set<string>, rotationPath: string, slab: S, clean: S -> S)
    returns (directory: string, written: seq<(string, S)>, strainPair: (S, S))
    ensures directory !in taken
    ensures rotationPath !in taken ==> directory == rotationPath
    ensures written == [("bulk.vasp", slab), ("bulk_cleaned.vasp", clean(slab))]
    ensures strainPair.0 == strainPair.1 == clean(slab)
  {
    directory := UniquePath.UniqueDirectory(taken, rotationPath);
    written := [("bulk.vasp", slab)];
    var cleaned := clean(slab);
    written := written + [("bulk_cleaned.vasp", cleaned)];
    strainPair := (cleaned, cleaned);
  }
}
