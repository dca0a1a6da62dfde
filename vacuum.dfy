/** The vacuum-layer manager of the slab script: it asks for a thickness
    and a lattice direction, lengthens the matching diagonal entry of the
    unit cell without moving the atoms, and keeps a log of what it did.
    Reading and writing the structure file are outside the model: the
    cell rows and the atom positions are given to the constructor. */
module Vacuum {
  import opened Common

  /** One line of the manager's log. */
  datatype LogEntry =
    | VacuumRequested(size: real, direction: string)   // the answers, after normalisation
    | SavedTo(path: string)                             // where the widened structure goes

  /** The name the widened structure is saved under. */
  const OutputName: string := "structure_with_vacuum.vasp"

  // ---------------------------------------------------------------------
  // Normalising the direction answer

  /** `str.lower()` on one character, for the ASCII capitals. */
  function LowerChar(c: char): (r: char)
    ensures 'A' <= c <= 'Z' ==> (r as int) == (c as int) + 32
    ensures !('A' <= c <= 'Z') ==> r == c
  {
    if 'A' <= c <= 'Z' then ((c as int) + 32) as char else c
  }

  function Lower(s: string): (r: string)
    ensures |r| == |s| && forall i :: 0 <= i < |s| ==> r[i] == LowerChar(s[i])
  {
    seq(|s|, i requires 0 <= i < |s| => LowerChar(s[i]))
  }

  /** The direction the manager works with: the lower-cased answer when it
      is `a`, `b` or `c`, and `c` otherwise. */
  function NormalizeDirection(answer: string): (d: string)
    ensures d == "a" <==> answer == "a" || answer == "A"
    ensures d == "b" <==> answer == "b" || answer == "B"
    ensures d == "c" <==> answer !in {"a", "A", "b", "B"}
  {
    LowerOfOneLetter(answer, 'a');
    LowerOfOneLetter(answer, 'b');
    LowerOfOneLetter(answer, 'c');
    var lowered := Lower(answer);
    if lowered in {"a", "b", "c"} then lowered else "c"
  }

  /** The lower-cased text is a given small letter exactly when the text
      is that letter or its capital. */
  lemma LowerOfOneLetter(s: string, small: char)
    requires 'a' <= small <= 'z'
    ensures Lower(s) == [small] <==> s == [small] || s == [((small as int) - 32) as char]
  {
    if Lower(s) == [small] {
      assert |s| == 1 && LowerChar(s[0]) == small;
    }
    if s == [((small as int) - 32) as char] {
      assert Lower(s)[0] == small;
    }
  }

  /** Asking again with the normalised answer gives the same direction. */
  lemma NormalizeDirectionIdempotent(answer: string)
    ensures NormalizeDirection(NormalizeDirection(answer)) == NormalizeDirection(answer)
  {
  }

  /** Which diagonal entry a direction lengthens; none for anything but
      `a`, `b` and `c`. */
  function DirectionAxis(direction: string): (r: Option<nat>)
    ensures r.Some? <==> direction in {"a", "b", "c"}
    ensures r.Some? ==> r.value < 3
  {
    if direction == "a" then Some(0)
    else if direction == "b" then Some(1)
    else if direction == "c" then Some(2)
    else None
  }

  // ---------------------------------------------------------------------
  // The cell update

  /** The cell with `size` added to the diagonal entry of `direction`. */
  function Widened(cell: seq<Vec3>, direction: string, size: real): (r: seq<Vec3>)
    requires |cell| == 3
    ensures |r| == 3
    ensures forall i, m :: 0 <= i < 3 && 0 <= m < 3 ==>
      Component(r[i], m)
      == Component(cell[i], m) + (if DirectionAxis(direction) == Some(i) && m == i then size else 0.0)
  {
    var axis := DirectionAxis(direction);
    seq(3, i requires 0 <= i < 3 =>
      if axis == Some(i) then WithComponent(cell[i], i, Component(cell[i], i) + size) else cell[i])
  }

  /** Two rows with the same components are the same row. */
  lemma SameComponents(v: Vec3, w: Vec3)
    requires forall m :: 0 <= m < 3 ==> Component(v, m) == Component(w, m)
    ensures v == w
  {
    assert Component(v, 0) == Component(w, 0);
    assert Component(v, 1) == Component(w, 1);
    assert Component(v, 2) == Component(w, 2);
  }

  /** Two cells with the same entries are the same cell. */
  lemma {:induction false} SameEntries(c1: seq<Vec3>, c2: seq<Vec3>)
    requires |c1| == |c2| == 3
    requires forall i, m :: 0 <= i < 3 && 0 <= m < 3 ==> Component(c1[i], m) == Component(c2[i], m)
    ensures c1 == c2
  {
    forall i | 0 <= i < 3
      ensures c1[i] == c2[i]
    {
      SameComponents(c1[i], c2[i]);
    }
  }

  /** Adding two layers in the same direction adds their thicknesses. */
  lemma {:induction false} WidenedTwice(cell: seq<Vec3>, direction: string, size1: real, size2: real)
    requires |cell| == 3
    ensures Widened(Widened(cell, direction, size1), direction, size2) == Widened(cell, direction, size1 + size2)
  {
    SameEntries(Widened(Widened(cell, direction, size1), direction, size2), Widened(cell, direction, size1 + size2));
  }

  /** Layers in two directions can be added in either order. */
  lemma {:induction false} WidenedCommute(cell: seq<Vec3>, d1: string, size1: real, d2: string, size2: real)
    requires |cell| == 3
    ensures Widened(Widened(cell, d1, size1), d2, size2) == Widened(Widened(cell, d2, size2), d1, size1)
  {
    SameEntries(Widened(Widened(cell, d1, size1), d2, size2), Widened(Widened(cell, d2, size2), d1, size1));
  }

  /** A layer of thickness zero, or an unknown direction, leaves the cell
      as it was. */
  lemma {:induction false} WidenedIdentity(cell: seq<Vec3>, direction: string, size: real)
    requires |cell| == 3
    requires size == 0.0 || DirectionAxis(direction).None?
    ensures Widened(cell, direction, size) == cell
  {
    SameEntries(Widened(cell, direction, size), cell);
  }

  /** `os.path.join(directory, name)` for a plain file name. */
  function JoinPath(directory: string, name: string): (p: string)
    ensures |p| >= |name| && p[|p| - |name|..] == name
    ensures |directory| > 0 ==> |p| >= |directory| && p[..|directory|] == directory
    ensures |directory| == 0 ==> p == name
    ensures |directory| > 0 && directory[|directory| - 1] == '/' ==> p == directory + name
    ensures |directory| > 0 && directory[|directory| - 1] != '/' ==> p == directory + "/" + name
  {
    if |directory| == 0 then name
    else if directory[|directory| - 1] == '/' then directory + name
    else directory + "/" + name
  }

  // ---------------------------------------------------------------------
  // The manager

  class VacuumLayerManager {
    var filename: string
    var currentPath: string
    /** The lattice vectors of the structure, one row each. */
    var cell: seq<Vec3>
    /** The atom positions, Cartesian. */
    var positions: seq<Vec3>
    var log: seq<LogEntry>

    ghost predicate Valid()
      reads this
    {
      |cell| == 3
    }

    /** The structure read from `filename`, in the directory `currentPath`. */
    constructor (filename: string, cell: seq<Vec3>, positions: seq<Vec3>, currentPath: string)
      requires |cell| == 3
      ensures Valid()
      ensures this.filename == filename && this.currentPath == currentPath
      ensures this.cell == cell && this.positions == positions
      ensures log == []
    {
      this.filename := filename;
      this.currentPath := currentPath;
      this.cell := cell;
      this.positions := positions;
      log := [];
    }

    /** Takes the two answers (the thickness already read as a number),
        normalises the direction and logs both. */
    method PromptVacuumLayer(sizeAnswer: real, directionAnswer: string) returns (size: real, direction: string)
      modifies this
      ensures size == sizeAnswer && direction == NormalizeDirection(directionAnswer)
      ensures log == old(log) + [VacuumRequested(size, direction)]
      ensures cell == old(cell) && positions == old(positions)
      ensures filename == old(filename) && currentPath == old(currentPath)
    {
      size := sizeAnswer;
      direction := Lower(directionAnswer);
      if direction !in {"a", "b", "c"} {
        direction := "c";
      }
      log := log + [VacuumRequested(size, direction)];
    }

    /** Lengthens the diagonal entry of `direction` by `size` on a copy of
        the cell and installs the copy; the atoms keep their Cartesian
        positions. */
    method AddVacuumLayer(size: real, direction: string)
      requires Valid()
      modifies this
      ensures Valid()
      ensures cell == Widened(old(cell), direction, size)
      ensures positions == old(positions)
      ensures log == old(log) + [SavedTo(JoinPath(currentPath, OutputName))]
      ensures filename == old(filename) && currentPath == old(currentPath)
    {
      var newCell := cell;
      if direction == "a" {
        newCell := newCell[0 := newCell[0].(x := newCell[0].x + size)];
      } else if direction == "b" {
        newCell := newCell[1 := newCell[1].(y := newCell[1].y + size)];
      } else if direction == "c" {
        newCell := newCell[2 := newCell[2].(z := newCell[2].z + size)];
      }
      SameEntries(newCell, Widened(cell, direction, size));
      cell := newCell;
      log := log + [SavedTo(JoinPath(currentPath, OutputName))];
    }

    /** Both steps in order; the returned log is what goes to the log file. */
    method Run(sizeAnswer: real, directionAnswer: string) returns (logLines: seq<LogEntry>)
      requires Valid()
      modifies this
      ensures Valid()
      ensures cell == Widened(old(cell), NormalizeDirection(directionAnswer), sizeAnswer)
      ensures positions == old(positions)
      ensures logLines == log == old(log) + [VacuumRequested(sizeAnswer, NormalizeDirection(directionAnswer)),
                                              SavedTo(JoinPath(currentPath, OutputName))]
    {
      var size, direction := PromptVacuumLayer(sizeAnswer, directionAnswer);
      AddVacuumLayer(size, direction);
      logLines := log;
    }
  }
}
