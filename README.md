# DWBuilder core, modelled in Dafny

DWBuilder is a set of Python scripts that build ferroelectric domain-wall and
heterostructure-interface models for DFT codes. A bulk crystal is cut along two
symmetry-related orientations taken from a recipe table. The two slabs are
stacked into a domain pair, and atoms that overlap at the new interface are
removed. The slabs, the stack and optional supercells are written as VASP
POSCAR files, together with a linear strain report and a log.

The crystallography (cutting, rotating, stacking, replicating, neighbour
lists, distances) comes from ASE and is not modelled. This project models the
sequential logic the scripts wrap around those calls. ASE operations appear as
function parameters over an abstract structure type. The neighbour list and
distance appear as oracles on atom values. `os.path.exists` is a finite set of
taken names.

Modules (one file each):

- `Common`: three-component rows, `Option`/`Result`, and the Python exceptions a run can end with.
- `Text`: the pieces of Python string handling the scripts use. These are
  `str(n)`, `int()` on unsigned tokens, `split(sep)`/`join`, `strip()` and
  `split()`.
- `Overlap`: `remove_close_atoms` (four copies; one without the minimum image).
- `Recipes`: the wall-type enum, the recipe table `get_angles_dict`, `get_system_selection`, menu indexing and `get_valid_angles`.
- `Dispatch`: the `ALL` expansion and per-family dispatch of both builders, and the stage order of both `process_slab` variants.
- `UniquePath`: both `get_unique_path` variants and `os.path.splitext`.
- `Strain`: the linear percent strain.
- `Directions`: `get_lattice_direction`.
- `Stages`: the stage order of the interface and rotated-bulk builders' `main`.
- `Poscar`: the line layout written by `write_poscar` and read by `import_poscar`.
- `LayerStack`: the layer-stacking charged-wall (along c) and neutral-wall (along b) builders.
- `Bonds`: the bond bookkeeping of the bonding analysis.
- `Vacuum`: the vacuum-layer manager class.

Behaviour of the code worth knowing, which the model keeps as written:

- No copy of `remove_close_atoms` checks the cutoff; a cutoff of zero or
  less removes nothing (`Overlap.NonPositiveCutoffRemovesNothing`).
- An unknown wall type is not reported in one uniform way:
  - Text that is no wall-type value raises `ValueError` in the enum constructor.
  - A valid value missing from the family raises `KeyError`.
  - The domain-wall builder's Pnma branch ignores the choice and always builds FDW.
- The slab builder indexes `space_groups[selection - 1]` with Python's negative
  indexing. Menu number 0 therefore selects P6_3cm, and -5..-1 select the other
  families.
- In the slab builder, menu number 6 offers plain strings to a prompt that reads
  `.value`. Number 7 calls a method the class does not define. Both end in
  `AttributeError`.
- The layer-stacking builders cut P2's rows with P1's species counts.
- `get_lattice_direction` does not check that there are three components.
- The domain-wall builder always asks for three supercell sizes, so its
  supercell branch is always taken.

## Model

| member | source | states |
|---|---|---|
| Text.NatToString | scripts/cdw.py:114 | `str(n)` of a count is a non-empty string of decimal digits with no whitespace |
| Text.ParseNat | scripts/cdw.py:97 | `int()` on a token succeeds exactly for non-empty digit strings |
| Text.ParseNatToString | scripts/cdw.py:97 | `int(str(n)) == n` for every count |
| Text.NatToStringInjective | scripts/dwbuilder.py:201 | two different numbers never print the same |
| Text.Split | scripts/hibuilder.py:59 | `split(',')` gives at least one piece, and no piece contains the separator |
| Text.JoinSplit | scripts/hibuilder.py:59 | joining the pieces with the separator gives back the input line |
| Text.SplitLength | scripts/hibuilder.py:59 | there is one piece more than there are separators |
| Text.StripLeft | scripts/hibuilder.py:59 | leading `strip()`: result is a suffix; it starts with a non-space; only spaces were removed |
| Text.StripRight | scripts/hibuilder.py:59 | trailing `strip()`: result is a prefix; it ends with a non-space; only spaces were removed |
| Text.StripIsTrimmedSlice | scripts/hibuilder.py:59 | `strip()` keeps one contiguous slice; only whitespace is dropped around it; the slice neither starts nor ends with whitespace |
| Text.LeadingWord | scripts/cdw.py:96 | the first word of `split()` is the longest whitespace-free prefix |
| Text.Words | scripts/cdw.py:96-97 | every word of `split()` is non-empty and whitespace-free |
| Text.WordsOfJoin | scripts/cdw.py:113-114 | `" ".join(words).split() == words` for non-empty, whitespace-free words |
| Strain.LinearStrain | scripts/dwbuilder.py:142-144 | `(n1 - n2) / n2 * 100` is zero iff the lengths are equal, positive iff the first is longer, negative iff shorter |
| Strain.StrainRecoversLength | scripts/hibuilder.py:107-109 | the strain recovers the first length: `n1 == n2 * (1 + s/100)` |
| Strain.StrainReciprocal | scripts/hibuilder.py:107-109 | measuring in the other direction gives the reciprocal growth factor |
| Strain.LatticeStrain | scripts/hibuilder.py:107-109 | the three strains are all zero iff the lengths agree; each axis is positive iff the first slab is longer along it |
| Strain.SelfStrainIsZero | scripts/rotationmatrix.py:81-83 | the single-slab variant compares each vector with itself, so it always reports zero |
| Directions.Tokens | scripts/hibuilder.py:59 | one stripped token per comma-separated piece |
| Directions.ParseAll | scripts/hibuilder.py:59 | converts iff every token converts, and then gives each token's value in order |
| Directions.LatticeDirection | scripts/hibuilder.py:56-59 | succeeds iff every token converts, else `ValueError`; gives one component per token, in order |
| Directions.TokensAreTrimmedPieces | scripts/rotationmatrix.py:43 | there are commas + 1 tokens; each is comma-free and trimmed; the pieces rebuild the line |
| Directions.TwoComponentsAccepted | scripts/rotationmatrix.py:40-43 | nothing insists on three components: a two-piece line yields a two-component direction |
| UniquePath.SplitExt | scripts/dwbuilder.py:160 | stem + extension is the name; the extension is empty or starts with a dot and has no `/` |
| UniquePath.SplitExtIsLastDotSuffix | scripts/dwbuilder.py:160 | the extension holds no further dot and follows a non-dot character of the last component; it is empty exactly when every dot of the last component is in its leading run of dots |
| UniquePath.CandidateInjective | scripts/dwbuilder.py:164 | different counters give different candidate names |
| UniquePath.CandidateIsNotOriginal | scripts/hibuilder.py:74 | no candidate equals the name it was derived from |
| UniquePath.UniqueFileName | scripts/dwbuilder.py:159-166 | result is not taken; it is the name itself when free; otherwise it is `base_k + ext` for the least free `k >= 1` |
| UniquePath.UniqueDirectory | scripts/hibuilder.py:68-76 | result is not taken; it is the path itself when free; otherwise it is `base_k` (extension dropped) for the least free `k >= 1` |
| Overlap.RemoveCloseAtoms | scripts/dwbuilder.py:168-184 | the nested marking loops return exactly the atoms without a close lower-indexed partner, in their original order |
| Overlap.KeptIndicesSpec | scripts/dwbuilder.py:183 | kept indices are ascending, in range, and exactly the unmarked ones |
| Overlap.KeepIndexing | scripts/dbuilder.py:179 | survivor `k` is the atom at the `k`-th unmarked index |
| Overlap.KeepNothingMarked | scripts/hibuilder.py:99 | with nothing marked the structure is returned unchanged |
| Overlap.FirstAtomKept | scripts/dbuilder.py:163-179 | index 0 is never marked, and the first survivor is the first atom |
| Overlap.RemovedIffCloseToLower | scripts/dwbuilder.py:174-180 | an atom is removed iff some lower-indexed atom is close to it |
| Overlap.SurvivorsSeparated | scripts/hibuilder.py:84-100 | no later survivor is close to an earlier one, because marked partners still mark |
| Overlap.SurvivorsSeparatedSymmetric | scripts/dwbuilder.py:174-183 | with a symmetric closeness test, no two survivors are close in either order |
| Overlap.RemoveCloseIdempotent | scripts/dwbuilder.py:174-183 | running the resolver on its own output removes nothing |
| Overlap.KeepLength | scripts/rotationmatrix.py:75 | the atom count never grows, and stays equal iff nothing is marked |
| Overlap.MarkedMonotone | scripts/rotationmatrix.py:68-74 | a closeness test that holds on fewer pairs marks a subset of atoms |
| Overlap.DirectDistanceMarksSubset | scripts/rotationmatrix.py:68-74 | measuring the direct distance (never shorter than the minimum image) marks a subset of what the minimum-image copies mark |
| Overlap.NonPositiveCutoffRemovesNothing | scripts/dwbuilder.py:168-184 | a cutoff `<= 0` is accepted and removes no atom |
| Recipes.AngleOfValue | scripts/dwbuilder.py:51-62 | `DomainWallAngle(text)` is the member with that value, or fails iff no member has it |
| Recipes.AngleOfValueRoundTrip | scripts/dwbuilder.py:51-62 | typing a member's value selects that member |
| Recipes.AnglesDict | scripts/dwbuilder.py:64-128 | every family except P6_3cm has a table; every entry is two recipes sharing a stacking axis in {0,1,2}; keys are distinct; `ALL` is not a key |
| Recipes.DomainSizeScalesStackingDirection | scripts/dwbuilder.py:64-128 | at size `d` each recipe's stacking direction is `d` times its size-1 value; the other two directions and the keys do not depend on `d` |
| Recipes.TableWallTypes | scripts/dbuilder.py:83-147 | the keys of each family's table, in insertion order |
| Recipes.SystemSelection | scripts/dwbuilder.py:223-233 | the six known symbols map to 1..6 in menu order; every other symbol maps to 7 |
| Recipes.SpaceGroupOfSelection | scripts/dbuilder.py:276-277 | `space_groups[selection - 1]` with Python indexing succeeds iff `-5 <= selection <= 6`: 1..6 in menu order, 0..-5 from the end |
| Recipes.SelectionRoundTrip | scripts/dbuilder.py:276-277 | the detected symbol's menu number indexes that same space group |
| Recipes.ValidAngles | scripts/dbuilder.py:223-237 | `ALL` is offered except for Pnma and P6_3cm; only P6_3cm offers builder names; unknown numbers list every member |
| Recipes.ValidAnglesMatchTable | scripts/dwbuilder.py:261-275 | for families 1..5 the menu offers exactly the table's wall types (plus `ALL`) |
| Dispatch.Lookup | scripts/dwbuilder.py:301 | `angles_dict[angle]` succeeds iff the key is present, giving that entry's recipes |
| Dispatch.WallJobs | scripts/dwbuilder.py:297-301 | `ALL` processes every entry in key order; any other choice processes exactly that entry, as one job of the given family and base, or raises `KeyError`; every job is a domain pair |
| Dispatch.PolarAxis | scripts/dwbuilder.py:253-259 | a, b and c are kept and anything else becomes c |
| Dispatch.DomainWallJobs | scripts/dwbuilder.py:445-454 | 1..4 process the chosen wall (or the whole family for `ALL`) of R3c on its pseudo-cubic setting, of R3m and P4mm on the input, of Pmc2_1 on the frame of the normalised polar axis; Pnma always processes FDW; numbers outside 1..5 process nothing; every job is a domain pair |
| Dispatch.SlabJobs | scripts/dbuilder.py:267-289 | 6 and 7 raise `AttributeError`; out-of-range numbers raise `IndexError`; unknown text raises `ValueError`; 0 reaches P6_3cm and raises `KeyError`; a known wall type with 1..5 or -5..-1 processes that family's chosen wall (or all of them) on the input structure |
| Dispatch.ProcessSlab | scripts/dwbuilder.py:186-212 | stack of the two cut slabs along the first recipe's axis, cleaned; each slab cleaned; strain on the uncleaned slabs; supercell of the cleaned stack only when a size is given; a fresh directory, `{group}_{angleType}` when free and otherwise the least free `_k` candidate; the files `{angleType}_stacked.vasp`, `{angleType}_domain1.vasp`, `{angleType}_domain2.vasp` and `{angleType}_supercell.vasp`, all distinct |
| Dispatch.OutputNamesDistinct | scripts/dwbuilder.py:195-210 | the stacked, two domain and supercell names that `process_slab` asks for are pairwise different |
| Dispatch.DomainOutputNameInjective | scripts/dbuilder.py:256-263 | different domain numbers, or domain vs. supercell, give different file names |
| Dispatch.ProcessDomainSlabs | scripts/dbuilder.py:249-265 | one cleaned domain file per recipe, numbered `i + 1` in recipe order, each followed by its cleaned supercell only when a size is given |
| Stages.BuildInterface | scripts/hibuilder.py:149-177 | fresh `HIS` directory; both bulk slabs, the stack and the cleaned stack written in that order; strain on the uncleaned bulk slabs |
| Stages.BuildRotatedBulk | scripts/rotationmatrix.py:105-121 | fresh `RotationMatrix` directory; the slab and the cleaned slab written; strain of the cleaned slab against itself |
| Poscar.Slice | scripts/cdw.py:95 | Python slice `xs[lo:hi]`: bounds are clamped and an inverted range is empty |
| Poscar.ParseRows | scripts/cdw.py:95 | converts iff every line converts, row by row |
| Poscar.ParseCounts | scripts/cdw.py:97 | `list(map(int, words))` succeeds iff every word is a number, word by word |
| Poscar.ImportPoscar | scripts/ndw.py:87-97 | lattice from lines 2-4, species from line 5, counts from line 6, then `min(sum(counts), available)` coordinate rows from line 8; succeeds exactly when the file reaches the counts line and every lattice line, count and read coordinate line converts; `IndexError` when the lattice reads but the file ends before the counts line, else `ValueError` |
| Poscar.ImportIgnoresUnreadLines | scripts/cdw.py:90-104 | lines 0, 1 and 7 do not influence what is read |
| Poscar.WritePoscar | scripts/cdw.py:106-118 | writes the header lines, the lattice lines, species, counts, `Direct`, then the coordinate lines |
| Poscar.PoscarLinesLayout | scripts/cdw.py:109-117 | the line index of each part of the written file |
| Poscar.CountsRoundTrip | scripts/cdw.py:97-114 | the written counts line reads back as the counts |
| Poscar.ImportWriteRoundTrip | scripts/cdw.py:90-117 | a written structure reads back unchanged, given that each printed lattice and coordinate row reads back as itself |
| Poscar.ImportWriteShape | scripts/cdw.py:90-117 | when the printed rows merely convert back (rounding allowed), the written file imports with the species and counts unchanged and as many coordinate rows as were written |
| LayerStack.Wrap | scripts/cdw.py:48-49 | subtracts 1 from every coordinate above 0.97 and leaves the rest unchanged; maps `[0, 1)` into `(-0.03, 0.97]` |
| LayerStack.WrapRows | scripts/ndw.py:48-49 | the wrap is applied to every coordinate of every row and to nothing else |
| LayerStack.SpeciesBlocks | scripts/cdw.py:51-58 | the three blocks concatenate to the rows, with sizes A, B and the rest |
| LayerStack.Shift | scripts/cdw.py:65-71 | the stacking coordinate becomes `(x + ii - 1) / s`; the other two are unchanged |
| LayerStack.Layer | scripts/cdw.py:63-71 | layer `ii` is P1's block when `ii <= s/2`, else P2's, with every row shifted |
| LayerStack.Supercell | scripts/cdw.py:48-82 | the builder succeeds iff there are exactly three counts, `s >= 1` and the coordinate arrays it slices are non-empty; counts become `[A*s, B*s, O*s]`; only the stacking lattice row is scaled by `s`; rows are A, then B, then O, layer by layer |
| LayerStack.StackLayers | scripts/cdw.py:60-77 | the loop over `ii` builds every layer in order, or raises `IndexError` when it first touches an empty coordinate array |
| LayerStack.BuildSupercell | scripts/ndw.py:48-82 | the builder's body computes exactly `Supercell` |
| LayerStack.LayersLength | scripts/cdw.py:63-71 | P1 supplies `floor(s/2)` of the first `n` layers and P2 the rest |
| LayerStack.SingleLayerIsSecond | scripts/ndw.py:63-71 | with `s = 1` the only layer comes from P2 |
| LayerStack.FullStackLength | scripts/cdw.py:63-77 | equal blocks stacked `s` times give `s` times the rows |
| LayerStack.RowsMatchCounts | scripts/cdw.py:73-82 | when both inputs hold `A+B+O` rows, at least one, the build succeeds and the output holds as many rows as its counts line says |
| LayerStack.StackedRowCount | scripts/ndw.py:73-82 | the output has `A*s + B*s + O*s` rows |
| LayerStack.LayersAreOrdered | scripts/cdw.py:65-71 | wrapped rows land in disjoint layer bands ordered by `ii` along the stacking axis |
| LayerStack.RunBuilder | scripts/cdw.py:34-88 | read P1, then P2, then build and write: the outcome is exactly `RunOutcome` |
| LayerStack.ChargedWallMain | scripts/cdw.py:34-88 | stacks along c; the log file is written after a missing file and after a successful write, not after an exception |
| LayerStack.NeutralWallScript | scripts/ndw.py:36-127 | stacks along b; `main` never writes the log; the script writes it unless an exception escaped |
| LayerStack.MissingFileWritesNothing | scripts/ndw.py:40-46 | the run ends without output iff P1 is missing, or P1 reads and P2 is missing |
| LayerStack.OutputReadsBack | scripts/cdw.py:79-117 | the written output reads back as the built structure, given that each row it prints reads back as itself |
| Bonds.SortedPair | scripts/bondanalysis.py:42 | the key holds the same two symbols, in ascending order |
| Bonds.SortedPairSymmetric | scripts/bondanalysis.py:42 | the key does not depend on which atom comes first |
| Bonds.KeyOrderSpec | scripts/bondanalysis.py:35-44 | keys are listed once each, exactly those with a recorded pair |
| Bonds.GroupedSpec | scripts/bondanalysis.py:35-44 | each key's list holds its group's values in list order; the keys are exactly those with a recorded pair (distance `<= cutoff`) |
| Bonds.TotalRecorded | scripts/bondanalysis.py:178 | the sum of the per-key list lengths is the number of recorded pairs |
| Bonds.DetermineBonding | scripts/bondanalysis.py:32-45 | both dictionaries have the listed keys; they grow in lockstep (same lengths, non-empty, aligned with the group); the total is the number of recorded pairs |
| Bonds.GroupingFacts | scripts/bondanalysis.py:43-44 | the facts above hold after any prefix of the neighbour list |
| Bonds.MinLength | scripts/bondanalysis.py:124 | `np.min`: a length that occurs and is at most every length |
| Bonds.MaxLength | scripts/bondanalysis.py:125 | `np.max`: a length that occurs and is at least every length |
| Bonds.LastWithSpec | scripts/bondanalysis.py:134-141 | finds nothing iff no entry has the value; otherwise finds the key of the last entry that has it |
| Bonds.ExtremeBondTypes | scripts/bondanalysis.py:118-143 | `ValueError` iff there are no bonds; otherwise the keys of the last shortest and the last longest length in iteration order |
| Bonds.BondTypesPartition | scripts/bondanalysis.py:147-159 | common, only-in-1 and only-in-2 types are pairwise disjoint and cover the union |
| Bonds.PercentChange | scripts/bondanalysis.py:154 | non-finite iff the first length is 0; otherwise the linear strain of the second length against the first |
| Bonds.Changes | scripts/bondanalysis.py:152-154 | element-wise change when the lengths agree or one side has a single length; otherwise the arrays do not broadcast |
| Bonds.CompareBondLengths | scripts/bondanalysis.py:145-171 | one entry per common type, holding its element-wise changes; `ValueError` iff some common type does not broadcast |
| Vacuum.Lower | scripts/slab.py:52 | `lower()` maps each capital to its small letter and keeps everything else |
| Vacuum.NormalizeDirection | scripts/slab.py:52-55 | a/A gives a, b/B gives b, and anything else gives c |
| Vacuum.NormalizeDirectionIdempotent | scripts/slab.py:52-55 | normalising a normalised answer changes nothing |
| Vacuum.DirectionAxis | scripts/slab.py:62-67 | a, b and c pick diagonal entries 0, 1 and 2; any other text picks none |
| Vacuum.Widened | scripts/slab.py:60-67 | exactly the chosen diagonal entry grows by the size; every other entry is unchanged |
| Vacuum.WidenedTwice | scripts/slab.py:59-68 | two layers in one direction add their thicknesses |
| Vacuum.WidenedCommute | scripts/slab.py:59-68 | layers in two directions commute |
| Vacuum.WidenedIdentity | scripts/slab.py:62-67 | thickness 0 or an unknown direction leaves the cell unchanged |
| Vacuum.JoinPath | scripts/slab.py:70 | the name alone for an empty directory, else the directory and the name with exactly one `/` between them (none added when the directory already ends in `/`) |
| Vacuum.VacuumLayerManager.constructor | scripts/slab.py:44-48 | stores the file name, structure and working directory, with an empty log |
| Vacuum.VacuumLayerManager.PromptVacuumLayer | scripts/slab.py:50-57 | returns the size and the normalised direction; logs both; changes nothing else |
| Vacuum.VacuumLayerManager.AddVacuumLayer | scripts/slab.py:59-73 | the cell becomes the widened old cell; positions are not rescaled; the save path is logged |
| Vacuum.VacuumLayerManager.Run | scripts/slab.py:75-81 | prompts, then widens along the normalised direction; the log holds the two entries in that order |

## Left out

- ASE geometry (`cut`, `rotate`, `stack`, `repeat`, `NeighborList`,
  `get_distance`, `neighbor_list`) is foreign code. It appears as function
  parameters and oracles, and nothing is claimed about volumes, atom counts or
  positions it produces.
- pymatgen's symmetry classifier and the symmetry printing are foreign. The
  detected international symbol is an input.
- Prompts, coloured output and printing are I/O. Their answers are parameters.
- `float()`/`int()` on answers that do not convert is an input-handling error.
  The `ValueError` it raises is modelled only where the converted text is part
  of the model (lattice directions, POSCAR rows and counts).
- The contents of LOGFILE.txt, `os.makedirs` and file writes are side effects.
  Outputs are modelled as the list of (file name, structure) pairs, and
  POSCAR files as their lines.
- Angular strain (`np.arccos`) and vector norms are floating-point numerics.
  Norms are given as positive reals.
- Fixed-width float formatting (`:20.10f`) and `float()` parsing of POSCAR
  rows are floating-point text conversion. They are parameters `formatRow` and
  `parseRow`, and each row is taken as three numbers.
- `process_P6_3cm` and `main.py` start subprocesses, which is process
  plumbing. The manual-orientation path `create_domain_wall` is more of the
  same: cut, rotate, stack and writes. Its direction parsing is the
  comprehension modelled by `Directions.LatticeDirection`.
- `scripts/polarization.py`, `scripts/supercell.py`, `scripts/vasp2cif.py`,
  the structure conversion in the slab builder and the plots in the bonding
  analysis are I/O and floating-point numerics outside the core. So are the
  mean, median and standard deviation.
- `Text.ParseNat`: models `int()` for unsigned decimal tokens only. Signs,
  underscores and surrounding whitespace are not accepted, so a negative count
  reads as an error rather than a negative number.
- `Text.StripLeft`, `Text.StripRight` and `Text.Words` treat only space, tab, newline,
  carriage return, vertical tab and form feed as whitespace. Python also counts
  the other Unicode spaces and separators.
- `Vacuum.Lower`: lower-cases the ASCII capitals only, not every Unicode letter.
- `Strain.LinearStrain`: requires a positive second length. A zero norm gives
  a non-finite value in the scripts and is not modelled here.
- `Bonds.PercentChange`: states the value only for a positive first length.
  Bond lengths are never negative, and a zero one gives `None` for the
  non-finite result.
- `Bonds.CompareBondLengths`: the order in which the common types are visited
  (Python set order) only changes what is printed, not the resulting
  dictionary. The printing is left out.
- `Dispatch.ProcessSlab`: requires a two-recipe domain pair, which every table
  entry is (`Recipes.AnglesDict`). The strain report's own formula is
  `Strain.LatticeStrain`.
- `Dispatch.ProcessSlab` and `Dispatch.ProcessDomainSlabs` record file names
  only, not the directory paths joined in front of them. The domain-wall
  builder's directory starts empty, so its names are the requested ones, as
  the contract of `Dispatch.ProcessSlab` states.
- `Bonds.DetermineBonding` takes the neighbour list as given pairs with their
  minimum-image distances. `Bonds.Total` counts the values of the listed keys,
  which are exactly the dictionary's keys.
- `LayerStack.Supercell`: the wrap also applies to columns after the third,
  which the builder then drops. Rows are taken as three numbers, so that case
  does not arise in the model.
- Coordinates, lengths and cell entries are exact reals. The float64 rounding
  of the scripts is not modelled, in the coordinate wrap and layer shift, in
  the cell widening, in the strain and percent changes. So, for instance, the
  disjoint layer bands of `LayerStack.LayersAreOrdered` hold exactly only in
  real arithmetic.
- The log lines of the domain-wall and slab builders' managers are not
  modelled. Only the vacuum-layer manager's log is kept, as its state.
