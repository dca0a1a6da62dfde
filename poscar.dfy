/** The VASP POSCAR layout written by `write_poscar` and read by
    `import_poscar` in the layer-stacking builders, at the level of lines
    and whitespace-separated tokens. A file is its sequence of lines
    without terminators. Printing a row of three reals with fixed width
    and reading one back with `float()` are parameters. */
module Poscar {
  import opened Common
  import opened Text

  /** What `import_poscar` returns: lattice rows, species names, counts
      per species and fractional coordinate rows. */
  datatype Structure = Structure(lattice: seq<Vec3>, types: seq<string>, counts: seq<nat>, coords: seq<Vec3>)

  function Sum(xs: seq<nat>): nat
  {
    if |xs| == 0 then 0 else xs[0] + Sum(xs[1..])
  }

  function Min(a: int, b: int): int
  {
    if a <= b then a else b
  }

  /** Python's `xs[lo:hi]` for non-negative bounds: both bounds are
      clamped to the length and an inverted range is empty. */
  function Slice<T>(xs: seq<T>, lo: nat, hi: nat): (r: seq<T>)
    ensures |r| == if hi <= lo || |xs| <= lo then 0 else Min(hi, |xs|) - lo
    ensures forall k :: 0 <= k < |r| ==> r[k] == xs[lo + k]
  {
    var l := Min(lo, |xs|);
    var h := if hi <= l then l else Min(hi, |xs|);
    xs[l..h]
  }

  /** Converts every line to a row; `None` when one does not convert. */
  function ParseRows(lines: seq<string>, parseRow: string -> Option<Vec3>): (r: Option<seq<Vec3>>)
    ensures r.Some? <==> forall k :: 0 <= k < |lines| ==> parseRow(lines[k]).Some?
    ensures r.Some? ==> |r.value| == |lines| && forall k :: 0 <= k < |lines| ==> parseRow(lines[k]) == Some(r.value[k])
  {
    if |lines| == 0 then Some([])
    else match parseRow(lines[0])
      case None => None
      case Some(v) =>
        match ParseRows(lines[1..], parseRow)
        case None => None
        case Some(vs) => Some([v] + vs)
  }

  /** `list(map(int, words))` for unsigned decimal words. */
  function ParseCounts(words: seq<string>): (r: Option<seq<nat>>)
    ensures r.Some? <==> forall k :: 0 <= k < |words| ==> ParseNat(words[k]).Some?
    ensures r.Some? ==> |r.value| == |words| && forall k :: 0 <= k < |words| ==> ParseNat(words[k]) == Some(r.value[k])
  {
    if |words| == 0 then Some([])
    else match ParseNat(words[0])
      case None => None
      case Some(n) =>
        match ParseCounts(words[1..])
        case None => None
        case Some(ns) => Some([n] + ns)
  }

  /** `import_poscar` on the lines of a file: the lattice from lines 2 to
      4, the species from line 5, the counts from line 6, and as many
      coordinate lines from line 8 on as the counts add up to (fewer if
      the file ends). Lines 0, 1 and 7 are not read. A lattice or
      coordinate line or a count that does not convert raises `ValueError`;
      a file whose lattice reads but which ends before the counts line
      raises `IndexError`. */
  function ImportPoscar(lines: seq<string>, parseRow: string -> Option<Vec3>): (r: Result<Structure, RunError>)
    ensures |lines| <= 6 ==> r.Err?
    ensures r.Ok? <==>
      && |lines| > 6
      && (forall k :: 2 <= k < 5 ==> parseRow(lines[k]).Some?)
      && ParseCounts(Words(lines[6])).Some?
      && (forall k :: 8 <= k < |lines| && k < 8 + Sum(ParseCounts(Words(lines[6])).value) ==> parseRow(lines[k]).Some?)
    ensures r.Err? ==>
      r.error == if |lines| <= 6 && (forall k :: 2 <= k < |lines| && k < 5 ==> parseRow(lines[k]).Some?)
                 then IndexError else ValueError
    ensures r.Ok? ==>
      && |r.value.lattice| == 3
      && (forall k :: 0 <= k < 3 ==> parseRow(lines[2 + k]) == Some(r.value.lattice[k]))
      && r.value.types == Words(lines[5])
      && |r.value.counts| == |Words(lines[6])|
      && (forall k :: 0 <= k < |r.value.counts| ==> ParseNat(Words(lines[6])[k]) == Some(r.value.counts[k]))
      && |r.value.coords| == (if |lines| <= 8 then 0 else Min(Sum(r.value.counts), |lines| - 8))
      && (forall k :: 0 <= k < |r.value.coords| ==> parseRow(lines[8 + k]) == Some(r.value.coords[k]))
  {
    match ParseRows(Slice(lines, 2, 5), parseRow)
    case None => Err(ValueError)
    case Some(lattice) =>
      if |lines| <= 6 then Err(IndexError)
      else
        match ParseCounts(Words(lines[6]))
        case None => Err(ValueError)
        case Some(counts) =>
          match ParseRows(Slice(lines, 8, 8 + Sum(counts)), parseRow)
          case None => Err(ValueError)
          case Some(coords) => Ok(Structure(lattice, Words(lines[5]), counts, coords))
  }

  /** The header, the scale line and the line naming the coordinate mode
      do not influence what is read. */
  lemma ImportIgnoresUnreadLines(lines: seq<string>, other: seq<string>, parseRow: string -> Option<Vec3>)
    requires |lines| == |other|
    requires forall k :: 0 <= k < |lines| && k != 0 && k != 1 && k != 7 ==> lines[k] == other[k]
    ensures ImportPoscar(lines, parseRow) == ImportPoscar(other, parseRow)
  {
    assert Slice(lines, 2, 5) == Slice(other, 2, 5);
    if |lines| > 6 {
      match ParseCounts(Words(lines[6]))
      case None =>
      case Some(counts) =>
        assert Slice(lines, 8, 8 + Sum(counts)) == Slice(other, 8, 8 + Sum(counts));
    }
  }

  function FormatRows(rows: seq<Vec3>, formatRow: Vec3 -> string): (r: seq<string>)
    ensures |r| == |rows| && forall k :: 0 <= k < |rows| ==> r[k] == formatRow(rows[k])
  {
    seq(|rows|, k requires 0 <= k < |rows| => formatRow(rows[k]))
  }

  function CountWords(counts: seq<nat>): (r: seq<string>)
    ensures |r| == |counts| && forall k :: 0 <= k < |counts| ==> r[k] == NatToString(counts[k])
  {
    seq(|counts|, k requires 0 <= k < |counts| => NatToString(counts[k]))
  }

  /** The lines `write_poscar` writes, in order. */
  function PoscarLines(p: Structure, formatRow: Vec3 -> string): seq<string>
  {
    ["Generated Supercell", "1.0"]
      + FormatRows(p.lattice, formatRow)
      + [Join(p.types, " "), Join(CountWords(p.counts), " "), "Direct"]
      + FormatRows(p.coords, formatRow)
  }

  /** `write_poscar`: two header lines, one line per lattice row, the
      species line, the counts line, `Direct`, one line per coordinate row. */
  method WritePoscar(p: Structure, formatRow: Vec3 -> string) returns (lines: seq<string>)
    ensures lines == PoscarLines(p, formatRow)
    ensures |lines| == 5 + |p.lattice| + |p.coords|
  {
    lines := ["Generated Supercell"];
    lines := lines + ["1.0"];
    for k := 0 to |p.lattice|
      invariant lines == ["Generated Supercell", "1.0"] + FormatRows(p.lattice[..k], formatRow)
    {
      assert p.lattice[..k + 1] == p.lattice[..k] + [p.lattice[k]];
      lines := lines + [formatRow(p.lattice[k])];
    }
    assert p.lattice[..|p.lattice|] == p.lattice;
    lines := lines + [Join(p.types, " ")];
    var countWords: seq<string> := [];
    for k := 0 to |p.counts|
      invariant countWords == CountWords(p.counts[..k])
    {
      assert p.counts[..k + 1] == p.counts[..k] + [p.counts[k]];
      countWords := countWords + [NatToString(p.counts[k])];
    }
    assert p.counts[..|p.counts|] == p.counts;
    lines := lines + [Join(countWords, " ")];
    lines := lines + ["Direct"];
    ghost var header := lines;
    for k := 0 to |p.coords|
      invariant lines == header + FormatRows(p.coords[..k], formatRow)
    {
      assert p.coords[..k + 1] == p.coords[..k] + [p.coords[k]];
      lines := lines + [formatRow(p.coords[k])];
    }
    assert p.coords[..|p.coords|] == p.coords;
  }

  /** Where each part of the structure sits among the written lines. */
  lemma PoscarLinesLayout(p: Structure, formatRow: Vec3 -> string)
    requires |p.lattice| == 3
    ensures |PoscarLines(p, formatRow)| == 8 + |p.coords|
    ensures forall k :: 0 <= k < 3 ==> PoscarLines(p, formatRow)[2 + k] == formatRow(p.lattice[k])
    ensures PoscarLines(p, formatRow)[5] == Join(p.types, " ")
    ensures PoscarLines(p, formatRow)[6] == Join(CountWords(p.counts), " ")
    ensures forall k :: 0 <= k < |p.coords| ==> PoscarLines(p, formatRow)[8 + k] == formatRow(p.coords[k])
  {
    var top := ["Generated Supercell", "1.0"] + FormatRows(p.lattice, formatRow);
    var header := top + [Join(p.types, " "), Join(CountWords(p.counts), " "), "Direct"];
    assert |top| == 5 && |header| == 8;
    assert PoscarLines(p, formatRow) == header + FormatRows(p.coords, formatRow);
  }

  /** The counts line reads back as the counts. */
  lemma CountsRoundTrip(counts: seq<nat>)
    ensures ParseCounts(Words(Join(CountWords(counts), " "))) == Some(counts)
  {
    var words := CountWords(counts);
    forall k | 0 <= k < |words|
      ensures |words[k]| > 0 && NoSpace(words[k]) && ParseNat(words[k]) == Some(counts[k])
    {
      ParseNatToString(counts[k]);
    }
    WordsOfJoin(words);
    var parsed := ParseCounts(words).value;
    assert forall k :: 0 <= k < |words| ==> parsed[k] == counts[k];
    assert parsed == counts;
  }

  /** Row printing is undone by row reading on every lattice and
      coordinate row of `p`: the rows the writer actually prints. */
  predicate RowsReadBack(p: Structure, formatRow: Vec3 -> string, parseRow: string -> Option<Vec3>)
  {
    && (forall v :: v in p.lattice ==> parseRow(formatRow(v)) == Some(v))
    && (forall v :: v in p.coords ==> parseRow(formatRow(v)) == Some(v))
  }

  /** What the writer writes, the reader reads back: species, counts,
      lattice and coordinates all survive, provided the species names are
      single words, the counts add up to the number of coordinate rows,
      there are three lattice rows, and every printed row reads back as
      itself. */
  lemma ImportWriteRoundTrip(p: Structure, formatRow: Vec3 -> string, parseRow: string -> Option<Vec3>)
    requires |p.lattice| == 3
    requires forall k :: 0 <= k < |p.types| ==> |p.types[k]| > 0 && NoSpace(p.types[k])
    requires Sum(p.counts) == |p.coords|
    requires RowsReadBack(p, formatRow, parseRow)
    ensures ImportPoscar(PoscarLines(p, formatRow), parseRow) == Ok(p)
  {
    var lines := PoscarLines(p, formatRow);
    PoscarLinesLayout(p, formatRow);
    forall v | v in p.lattice || v in p.coords
      ensures parseRow(formatRow(v)).Some?
    {
    }
    ImportWriteShape(p, formatRow, parseRow);
    var r := ImportPoscar(lines, parseRow).value;
    forall k | 0 <= k < 3
      ensures r.lattice[k] == p.lattice[k]
    {
      assert p.lattice[k] in p.lattice;
      assert parseRow(lines[2 + k]) == Some(p.lattice[k]);
    }
    forall k | 0 <= k < |p.coords|
      ensures r.coords[k] == p.coords[k]
    {
      assert p.coords[k] in p.coords;
      assert parseRow(lines[8 + k]) == Some(p.coords[k]);
    }
    assert r.lattice == p.lattice && r.coords == p.coords;
  }

  /** With a printer whose rows merely convert back (the fixed-width
      `:20.10f` printing read by `float()` rounds, so the values may
      change), the written file still imports, with the species and counts
      unchanged and one coordinate row per written row. */
  lemma ImportWriteShape(p: Structure, formatRow: Vec3 -> string, parseRow: string -> Option<Vec3>)
    requires |p.lattice| == 3
    requires forall k :: 0 <= k < |p.types| ==> |p.types[k]| > 0 && NoSpace(p.types[k])
    requires Sum(p.counts) == |p.coords|
    requires forall v :: v in p.lattice || v in p.coords ==> parseRow(formatRow(v)).Some?
    ensures ImportPoscar(PoscarLines(p, formatRow), parseRow).Ok?
    ensures ImportPoscar(PoscarLines(p, formatRow), parseRow).value.types == p.types
    ensures ImportPoscar(PoscarLines(p, formatRow), parseRow).value.counts == p.counts
    ensures |ImportPoscar(PoscarLines(p, formatRow), parseRow).value.coords| == |p.coords|
  {
    var lines := PoscarLines(p, formatRow);
    PoscarLinesLayout(p, formatRow);
    WordsOfJoin(p.types);
    CountsRoundTrip(p.counts);
    forall k | 2 <= k < 5
      ensures parseRow(lines[k]).Some?
    {
      assert p.lattice[k - 2] in p.lattice;
    }
    forall k | 8 <= k < |lines|
      ensures parseRow(lines[k]).Some?
    {
      assert p.coords[k - 8] in p.coords;
    }
  }
}
