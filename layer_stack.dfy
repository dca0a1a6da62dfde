/** The layer-stacking domain-wall builders. Two POSCAR structures P1 and
    P2 of the same three species are stacked `s` times along one axis
    (c for the charged-wall builder, b for the neutral-wall builder):
    layers `1 .. s/2` come from P1, the rest from P2; each layer's
    coordinate along the axis is squeezed by `1/s` and offset by
    `(ii - 1)/s`. Lines of the input files come in as sequences of
    strings, `None` standing for a file that does not exist. */
module LayerStack {
  import opened Common
  import opened Poscar

  /** `np.where(x > 0.97, x - 1, x)` on one coordinate. */
  function Wrap(x: real): (r: real)
    ensures x > 0.97 ==> r == x - 1.0
    ensures x <= 0.97 ==> r == x
    ensures r <= 0.97 <==> x <= 1.97
    ensures 0.0 <= x < 1.0 ==> -0.03 < r <= 0.97
    ensures -0.03 < x <= 0.97 ==> r == x
  {
    if x > 0.97 then x - 1.0 else x
  }

  function WrapRow(v: Vec3): Vec3
  {
    Vec3(Wrap(v.x), Wrap(v.y), Wrap(v.z))
  }

  /** The wrap applied to every coordinate of every row. */
  function WrapRows(rows: seq<Vec3>): (r: seq<Vec3>)
    ensures |r| == |rows| && forall k :: 0 <= k < |rows| ==> r[k] == WrapRow(rows[k])
  {
    seq(|rows|, k requires 0 <= k < |rows| => WrapRow(rows[k]))
  }

  /** `rows[:a]`, `rows[a:a+b]` and `rows[a+b:]`: the three species
      blocks, cut with the first structure's counts. */
  function SpeciesBlocks(rows: seq<Vec3>, a: nat, b: nat): (r: (seq<Vec3>, seq<Vec3>, seq<Vec3>))
    ensures r.0 + r.1 + r.2 == rows
    ensures |rows| >= a + b ==> |r.0| == a && |r.1| == b && |r.2| == |rows| - a - b
  {
    var i := Min(a, |rows|);
    var j := Min(a + b, |rows|);
    assert Slice(rows, 0, a) == rows[..i];
    assert Slice(rows, a, a + b) == rows[i..j];
    (Slice(rows, 0, a), Slice(rows, a, a + b), rows[j..])
  }

  /** Whether layer `ii` of `s` is taken from P1: `ii <= s / 2` in true
      division. */
  predicate FromFirst(s: int, ii: int)
  {
    2 * ii <= s
  }

  /** One row placed in layer `ii` of `s` along `axis`. */
  function Shift(v: Vec3, axis: nat, s: int, ii: int): (w: Vec3)
    requires axis < 3 && s >= 1
    ensures Component(w, axis) == (Component(v, axis) + (ii - 1) as real) / s as real
    ensures forall m :: 0 <= m < 3 && m != axis ==> Component(w, m) == Component(v, m)
  {
    WithComponent(v, axis, Component(v, axis) / s as real + (ii - 1) as real / s as real)
  }

  /** Layer `ii`: the block of P1 or of P2, every row shifted. */
  function Layer(block1: seq<Vec3>, block2: seq<Vec3>, axis: nat, s: int, ii: int): (r: seq<Vec3>)
    requires axis < 3 && s >= 1
    ensures var block := if FromFirst(s, ii) then block1 else block2;
      |r| == |block| && forall k :: 0 <= k < |block| ==> r[k] == Shift(block[k], axis, s, ii)
  {
    var block := if FromFirst(s, ii) then block1 else block2;
    seq(|block|, k requires 0 <= k < |block| => Shift(block[k], axis, s, ii))
  }

  /** Layers `1 .. n`, lowest first. */
  function Layers(block1: seq<Vec3>, block2: seq<Vec3>, axis: nat, s: int, n: nat): seq<Vec3>
    requires axis < 3 && (n == 0 || n <= s)
  {
    if n == 0 then [] else Layers(block1, block2, axis, s, n - 1) + Layer(block1, block2, axis, s, n)
  }

  /** The whole body of the builder after both files are read, for a
      stacking axis, the integer `s` from the command line, P1 and the
      coordinate rows of P2. Unpacking the counts into `A, B, O` needs
      exactly three; slicing columns of an empty coordinate array raises
      `IndexError`; with `s < 1` there is nothing to stack. */
  function Supercell(axis: nat, s: int, p1: Structure, p2Coords: seq<Vec3>): (r: Result<Structure, RunError>)
    requires axis < 3
    ensures r.Ok? <==>
      |p1.counts| == 3 && s >= 1 && |p2Coords| > 0 && (s >= 2 ==> |p1.coords| > 0) && axis < |p1.lattice|
    ensures |p1.counts| != 3 ==> r == Err(ValueError)
    ensures |p1.counts| == 3 && s < 1 ==> r == Err(ValueError)
    ensures r.Ok? ==>
      && r.value.types == p1.types
      && r.value.counts == [p1.counts[0] * s, p1.counts[1] * s, p1.counts[2] * s]
      && |r.value.lattice| == |p1.lattice|
      && r.value.lattice[axis] == Scale(s as real, p1.lattice[axis])
      && (forall k :: 0 <= k < |p1.lattice| && k != axis ==> r.value.lattice[k] == p1.lattice[k])
      && r.value.coords == StackedCoords(axis, s, p1, p2Coords)
  {
    if |p1.counts| != 3 then Err(ValueError)
    else if (s >= 2 && |p1.coords| == 0) || (s >= 1 && |p2Coords| == 0) then Err(IndexError)
    else if s < 1 then Err(ValueError)
    else if |p1.lattice| <= axis then Err(IndexError)
    else
      Ok(Structure(
        p1.lattice[axis := Scale(s as real, p1.lattice[axis])],
        p1.types,
        [p1.counts[0] * s, p1.counts[1] * s, p1.counts[2] * s],
        StackedCoords(axis, s, p1, p2Coords)))
  }

  /** The output rows: all A rows layer by layer, then all B rows, then
      all O rows, both inputs wrapped and cut with P1's counts. */
  function StackedCoords(axis: nat, s: int, p1: Structure, p2Coords: seq<Vec3>): seq<Vec3>
    requires axis < 3 && s >= 1 && |p1.counts| == 3
  {
    var blocks1 := SpeciesBlocks(WrapRows(p1.coords), p1.counts[0], p1.counts[1]);
    var blocks2 := SpeciesBlocks(WrapRows(p2Coords), p1.counts[0], p1.counts[1]);
    Layers(blocks1.0, blocks2.0, axis, s, s)
      + Layers(blocks1.1, blocks2.1, axis, s, s)
      + Layers(blocks1.2, blocks2.2, axis, s, s)
  }

  /** The loop over `ii` in `1 .. s`: one layer of each species block per
      step, appended to the A, B and O rows. The step that first touches
      an empty coordinate array stops with `IndexError`. */
  method StackLayers(blocks1: (seq<Vec3>, seq<Vec3>, seq<Vec3>), blocks2: (seq<Vec3>, seq<Vec3>, seq<Vec3>),
                     empty1: bool, empty2: bool, axis: nat, s: int)
    returns (r: Result<(seq<Vec3>, seq<Vec3>, seq<Vec3>), RunError>)
    requires axis < 3 && s >= 1
    ensures r.Err? <==> (s >= 2 && empty1) || empty2
    ensures r.Err? ==> r.error == IndexError
    ensures r.Ok? ==> r.value == (Layers(blocks1.0, blocks2.0, axis, s, s),
                                  Layers(blocks1.1, blocks2.1, axis, s, s),
                                  Layers(blocks1.2, blocks2.2, axis, s, s))
  {
    var coordsA, coordsB, coordsO := [], [], [];
    for ii := 1 to s + 1
      invariant ii > 1 && s >= 2 ==> !empty1
      invariant ii > s / 2 + 1 ==> !empty2
      invariant coordsA == Layers(blocks1.0, blocks2.0, axis, s, ii - 1)
      invariant coordsB == Layers(blocks1.1, blocks2.1, axis, s, ii - 1)
      invariant coordsO == Layers(blocks1.2, blocks2.2, axis, s, ii - 1)
    {
      if FromFirst(s, ii) {
        if empty1 {
          return Err(IndexError);
        }
      } else if empty2 {
        return Err(IndexError);
      }
      coordsA := coordsA + Layer(blocks1.0, blocks2.0, axis, s, ii);
      coordsB := coordsB + Layer(blocks1.1, blocks2.1, axis, s, ii);
      coordsO := coordsO + Layer(blocks1.2, blocks2.2, axis, s, ii);
    }
    r := Ok((coordsA, coordsB, coordsO));
  }

  /** The builder's body: unpack the counts, wrap both coordinate sets,
      cut the species blocks with P1's counts, stack the layers, and
      scale one row of a copy of P1's lattice. */
  method BuildSupercell(axis: nat, s: int, p1: Structure, p2Coords: seq<Vec3>) returns (r: Result<Structure, RunError>)
    requires axis < 3
    ensures r == Supercell(axis, s, p1, p2Coords)
  {
    if |p1.counts| != 3 {
      return Err(ValueError);
    }
    var a, b, o := p1.counts[0], p1.counts[1], p1.counts[2];
    var blocks1 := SpeciesBlocks(WrapRows(p1.coords), a, b);
    var blocks2 := SpeciesBlocks(WrapRows(p2Coords), a, b);
    if s < 1 {
      // the loop does not run and there is nothing to stack
      return Err(ValueError);
    }
    var stacked := StackLayers(blocks1, blocks2, |p1.coords| == 0, |p2Coords| == 0, axis, s);
    if stacked.Err? {
      return Err(stacked.error);
    }
    if |p1.lattice| <= axis {
      return Err(IndexError);
    }
    var lattice := p1.lattice;
    lattice := lattice[axis := Scale(s as real, lattice[axis])];
    var (coordsA, coordsB, coordsO) := stacked.value;
    r := Ok(Structure(lattice, p1.types, [a * s, b * s, o * s], coordsA + coordsB + coordsO));
  }

  /** P1 supplies the first `s / 2` layers (rounded down) and P2 the
      others; in particular a single layer comes from P2. */
  lemma {:induction false} LayersLength(block1: seq<Vec3>, block2: seq<Vec3>, axis: nat, s: int, n: nat)
    requires axis < 3 && n <= s
    ensures |Layers(block1, block2, axis, s, n)| == Min(n, s / 2) * |block1| + (n - Min(n, s / 2)) * |block2|
  {
    if n > 0 {
      LayersLength(block1, block2, axis, s, n - 1);
      var previous := |Layers(block1, block2, axis, s, n - 1)|;
      var layer := |Layer(block1, block2, axis, s, n)|;
      assert |Layers(block1, block2, axis, s, n)| == previous + layer;
      var m, m' := Min(n - 1, s / 2), Min(n, s / 2);
      if FromFirst(s, n) {
        assert m' == m + 1 && layer == |block1|;
      } else {
        assert m' == m && layer == |block2|;
      }
      OneMoreLayer(m, m', n, |block1|, |block2|, previous, layer);
    }
  }

  /** The arithmetic step of `LayersLength`. */
  lemma OneMoreLayer(m: int, m': int, n: int, x: int, y: int, previous: int, layer: int)
    requires previous == m * x + (n - 1 - m) * y
    requires (m' == m + 1 && layer == x) || (m' == m && layer == y)
    ensures previous + layer == m' * x + (n - m') * y
  {
    if m' == m + 1 && layer == x {
      assert m' * x == m * x + x;
      assert n - m' == n - 1 - m;
    } else {
      assert n - m' == (n - 1 - m) + 1;
      assert (n - m') * y == (n - 1 - m) * y + y;
    }
  }

  /** A structure with one layer is P2's rows, squeezed by nothing. */
  lemma SingleLayerIsSecond(block1: seq<Vec3>, block2: seq<Vec3>, axis: nat)
    requires axis < 3
    ensures Layers(block1, block2, axis, 1, 1) == Layer(block1, block2, axis, 1, 1)
    ensures |Layers(block1, block2, axis, 1, 1)| == |block2|
  {
    assert Layers(block1, block2, axis, 1, 0) == [];
  }

  /** Stacking two blocks of equal size `s` times gives `s` copies' worth
      of rows. */
  lemma FullStackLength(block1: seq<Vec3>, block2: seq<Vec3>, axis: nat, s: int)
    requires axis < 3 && s >= 1 && |block1| == |block2|
    ensures |Layers(block1, block2, axis, s, s)| == |block1| * s
  {
    LayersLength(block1, block2, axis, s, s);
    var h, x := s / 2, |block1|;
    assert Min(s, h) == h;
    assert h * x + (s - h) * x == s * x;
  }

  /** When both inputs hold exactly `A + B + O` rows, at least one, the
      build succeeds and the output holds as many rows as its counts line
      announces. */
  lemma RowsMatchCounts(axis: nat, s: int, p1: Structure, p2Coords: seq<Vec3>)
    requires axis < 3 && s >= 1 && |p1.counts| == 3 && axis < |p1.lattice|
    requires |p1.coords| == |p2Coords| == Sum(p1.counts) > 0
    ensures Supercell(axis, s, p1, p2Coords).Ok?
    ensures |Supercell(axis, s, p1, p2Coords).value.coords| == Sum(Supercell(axis, s, p1, p2Coords).value.counts)
  {
    var r := Supercell(axis, s, p1, p2Coords).value;
    var a, b, o := p1.counts[0], p1.counts[1], p1.counts[2];
    StackedRowCount(axis, s, p1, p2Coords);
    SumOfThree(r.counts);
  }

  lemma SumOfThree(xs: seq<nat>)
    requires |xs| == 3
    ensures Sum(xs) == xs[0] + xs[1] + xs[2]
  {
    assert Sum(xs[2..]) == xs[2] + Sum(xs[3..]);
    assert Sum(xs[1..]) == xs[1] + Sum(xs[1..][1..]) && xs[1..][1..] == xs[2..];
  }

  lemma StackedRowCount(axis: nat, s: int, p1: Structure, p2Coords: seq<Vec3>)
    requires axis < 3 && s >= 1 && |p1.counts| == 3
    requires |p1.coords| == |p2Coords| == Sum(p1.counts)
    ensures |StackedCoords(axis, s, p1, p2Coords)| == p1.counts[0] * s + p1.counts[1] * s + p1.counts[2] * s
  {
    var a, b, o := p1.counts[0], p1.counts[1], p1.counts[2];
    SumOfThree(p1.counts);
    var blocks1 := SpeciesBlocks(WrapRows(p1.coords), a, b);
    var blocks2 := SpeciesBlocks(WrapRows(p2Coords), a, b);
    assert |blocks1.0| == |blocks2.0| == a && |blocks1.1| == |blocks2.1| == b && |blocks1.2| == |blocks2.2| == o;
    FullStackLength(blocks1.0, blocks2.0, axis, s);
    FullStackLength(blocks1.1, blocks2.1, axis, s);
    FullStackLength(blocks1.2, blocks2.2, axis, s);
  }

  /** Rows that were wrapped into `(-0.03, 0.97]` land, in layer `ii`,
      strictly above every row of a lower layer: the layers occupy
      disjoint, ordered bands along the stacking axis. */
  lemma LayersAreOrdered(v: Vec3, w: Vec3, axis: nat, s: int, ii: int, jj: int)
    requires axis < 3 && s >= 1 && ii < jj
    requires -0.03 < Component(v, axis) <= 0.97 && -0.03 < Component(w, axis) <= 0.97
    ensures Component(Shift(v, axis, s, ii), axis) < Component(Shift(w, axis, s, jj), axis)
  {
    var sr := s as real;
    var lower := Component(v, axis) + (ii - 1) as real;
    var upper := Component(w, axis) + (jj - 1) as real;
    assert lower < upper;
    assert lower / sr < upper / sr;
  }

  /** How a run of a builder ends: an input file is missing (logged,
      nothing written), a Python exception escapes, or the output file is
      written with these lines. */
  datatype Outcome = Missing | Raised(error: RunError) | Written(lines: seq<string>)

  /** What a run does with the lines of the two input files. P1 is read
      first; P2 is only opened once P1 has been read. */
  function RunOutcome(axis: nat, s: int, file1: Option<seq<string>>, file2: Option<seq<string>>,
                      parseRow: string -> Option<Vec3>, formatRow: Vec3 -> string): Outcome
    requires axis < 3
  {
    if file1.None? then Missing
    else match ImportPoscar(file1.value, parseRow)
      case Err(e) => Raised(e)
      case Ok(p1) =>
        if file2.None? then Missing
        else match ImportPoscar(file2.value, parseRow)
          case Err(e) => Raised(e)
          case Ok(p2) =>
            match Supercell(axis, s, p1, p2.coords)
            case Err(e) => Raised(e)
            case Ok(out) => Written(PoscarLines(out, formatRow))
  }

  /** `main` of a builder without its logging: read P1, read P2, build,
      write. */
  method RunBuilder(axis: nat, s: int, file1: Option<seq<string>>, file2: Option<seq<string>>,
                    parseRow: string -> Option<Vec3>, formatRow: Vec3 -> string)
    returns (outcome: Outcome)
    requires axis < 3
    ensures outcome == RunOutcome(axis, s, file1, file2, parseRow, formatRow)
  {
    if file1.None? {
      return Missing;
    }
    var p1 := ImportPoscar(file1.value, parseRow);
    if p1.Err? {
      return Raised(p1.error);
    }
    if file2.None? {
      return Missing;
    }
    var p2 := ImportPoscar(file2.value, parseRow);
    if p2.Err? {
      return Raised(p2.error);
    }
    var out := BuildSupercell(axis, s, p1.value, p2.value.coords);
    if out.Err? {
      return Raised(out.error);
    }
    var lines := WritePoscar(out.value, formatRow);
    outcome := Written(lines);
  }

  /** The charged-wall builder stacks along c and writes its log file
      itself, both after a missing file and after writing the output. */
  method ChargedWallMain(s: int, file1: Option<seq<string>>, file2: Option<seq<string>>,
                         parseRow: string -> Option<Vec3>, formatRow: Vec3 -> string)
    returns (outcome: Outcome, logWritten: bool)
    ensures outcome == RunOutcome(2, s, file1, file2, parseRow, formatRow)
    ensures logWritten <==> !outcome.Raised?
  {
    outcome := RunBuilder(2, s, file1, file2, parseRow, formatRow);
    logWritten := outcome.Missing? || outcome.Written?;
  }

  /** The neutral-wall builder stacks along b; its `main` never writes the
      log file, the script does once `main` has returned. */
  method NeutralWallScript(s: int, file1: Option<seq<string>>, file2: Option<seq<string>>,
                           parseRow: string -> Option<Vec3>, formatRow: Vec3 -> string)
    returns (outcome: Outcome, logWrittenByMain: bool, logWritten: bool)
    ensures outcome == RunOutcome(1, s, file1, file2, parseRow, formatRow)
    ensures !logWrittenByMain
    ensures logWritten <==> !outcome.Raised?
  {
    outcome := RunBuilder(1, s, file1, file2, parseRow, formatRow);
    logWrittenByMain := false;
    logWritten := !outcome.Raised?;
  }

  /** A missing input file ends the run without output, whichever file it
      is, as long as P1 (when present) reads cleanly. */
  lemma MissingFileWritesNothing(axis: nat, s: int, file1: Option<seq<string>>, file2: Option<seq<string>>,
                                 parseRow: string -> Option<Vec3>, formatRow: Vec3 -> string)
    requires axis < 3
    ensures RunOutcome(axis, s, file1, file2, parseRow, formatRow).Missing? <==>
      file1.None? || (ImportPoscar(file1.value, parseRow).Ok? && file2.None?)
  {
  }

  /** The written output reads back as the built structure, when every
      row the builder prints reads back as itself and both inputs hold
      exactly the rows their counts announce. */
  lemma OutputReadsBack(axis: nat, s: int, file1: Option<seq<string>>, file2: Option<seq<string>>,
                        parseRow: string -> Option<Vec3>, formatRow: Vec3 -> string)
    requires axis < 3
    requires RunOutcome(axis, s, file1, file2, parseRow, formatRow).Written?
    requires RowsReadBack(Supercell(axis, s, ImportPoscar(file1.value, parseRow).value,
                                    ImportPoscar(file2.value, parseRow).value.coords).value, formatRow, parseRow)
    requires |ImportPoscar(file1.value, parseRow).value.coords| == Sum(ImportPoscar(file1.value, parseRow).value.counts)
    requires |ImportPoscar(file2.value, parseRow).value.coords| == Sum(ImportPoscar(file1.value, parseRow).value.counts)
    ensures ImportPoscar(RunOutcome(axis, s, file1, file2, parseRow, formatRow).lines, parseRow)
            == Supercell(axis, s, ImportPoscar(file1.value, parseRow).value, ImportPoscar(file2.value, parseRow).value.coords)
  {
    var p1 := ImportPoscar(file1.value, parseRow).value;
    var p2 := ImportPoscar(file2.value, parseRow).value;
    var out := Supercell(axis, s, p1, p2.coords).value;
    RowsMatchCounts(axis, s, p1, p2.coords);
    ImportWriteRoundTrip(out, formatRow, parseRow);
  }
}
