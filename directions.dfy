/** `get_lattice_direction`: a line of comma-separated numbers becomes one
    component per piece. Converting a piece to a float is a parameter
    (`None` where `float()` raises); the count of pieces is not checked. */
module Directions {
  import opened Common
  import opened Text

  /** The texts handed to `float()`: every comma-separated piece of the
      input, stripped. */
  function Tokens(input: string): (r: seq<string>)
    ensures |r| == |Split(input, ',')|
  {
    var pieces := Split(input, ',');
    seq(|pieces|, k requires 0 <= k < |pieces| => Strip(pieces[k]))
  }

  /** Converts every token in order; `None` as soon as one does not convert. */
  function ParseAll(tokens: seq<string>, parse: string -> Option<real>): (r: Option<seq<real>>)
    ensures r.Some? <==> forall k :: 0 <= k < |tokens| ==> parse(tokens[k]).Some?
    ensures r.Some? ==> |r.value| == |tokens| && forall k :: 0 <= k < |tokens| ==> Some(r.value[k]) == parse(tokens[k])
  {
    if |tokens| == 0 then Some([])
    else match parse(tokens[0])
      case None => None
      case Some(x) =>
        match ParseAll(tokens[1..], parse)
        case None => None
        case Some(xs) => Some([x] + xs)
  }

  /** The components read for one lattice direction, or `ValueError`. */
  function LatticeDirection(input: string, parse: string -> Option<real>): (r: Result<seq<real>, RunError>)
    ensures r.Ok? <==> forall k :: 0 <= k < |Tokens(input)| ==> parse(Tokens(input)[k]).Some?
    ensures r.Err? ==> r.error == ValueError
    ensures r.Ok? ==>
      |r.value| == |Tokens(input)| &&
      forall k :: 0 <= k < |r.value| ==> Some(r.value[k]) == parse(Tokens(input)[k])
  {
    var tokens := Tokens(input);
    match ParseAll(tokens, parse)
    case None => Err(ValueError)
    case Some(xs) => Ok(xs)
  }

  /** There is one token per comma plus one; each is a comma-free slice of
      the input line that neither starts nor ends with whitespace; and the
      pieces they were cut from rebuild the line. */
  lemma TokensAreTrimmedPieces(input: string)
    ensures |Tokens(input)| == Count(input, ',') + 1
    ensures Join(Split(input, ','), ",") == input
    ensures forall k :: 0 <= k < |Tokens(input)| ==>
      ',' !in Tokens(input)[k] &&
      (|Tokens(input)[k]| > 0 ==> !IsSpace(Tokens(input)[k][0]) && !IsSpace(Tokens(input)[k][|Tokens(input)[k]| - 1]))
  {
    SplitLength(input, ',');
    JoinSplit(input, ',');
    var pieces := Split(input, ',');
    forall k | 0 <= k < |pieces|
      ensures ',' !in Tokens(input)[k]
      ensures |Tokens(input)[k]| > 0 ==> !IsSpace(Tokens(input)[k][0]) && !IsSpace(Tokens(input)[k][|Tokens(input)[k]| - 1])
    {
      var lo, hi := StripIsTrimmedSlice(pieces[k]);
      assert Tokens(input)[k] == pieces[k][lo..hi];
      assert forall i :: 0 <= i < hi - lo ==> pieces[k][lo..hi][i] == pieces[k][lo + i];
    }
  }

  /** Nothing insists on three components: a line with exactly one comma
      whose two pieces convert yields a two-component direction. */
  lemma TwoComponentsAccepted(first: string, second: string, parse: string -> Option<real>)
    requires ',' !in first && ',' !in second
    requires parse(Strip(first)).Some? && parse(Strip(second)).Some?
    ensures LatticeDirection(first + "," + second, parse)
            == Ok([parse(Strip(first)).value, parse(Strip(second)).value])
  {
    TokensOfTwoPieces(first, second);
    ParseAllOfTwo(Strip(first), Strip(second), parse);
  }

  lemma TokensOfTwoPieces(first: string, second: string)
    requires ',' !in first && ',' !in second
    ensures Tokens(first + "," + second) == [Strip(first), Strip(second)]
  {
    SplitAfterSeparator(first, ',', second);
    SplitWithoutSeparator(second, ',');
    assert Split(first + "," + second, ',') == [first, second];
  }

  lemma ParseAllOfTwo(a: string, b: string, parse: string -> Option<real>)
    requires parse(a).Some? && parse(b).Some?
    ensures ParseAll([a, b], parse) == Some([parse(a).value, parse(b).value])
  {
    assert [a, b][1..] == [b] && [b][1..] == [];
    var y := parse(b).value;
    assert ParseAll([], parse) == Some([]);
    assert [y] + [] == [y];
    assert ParseAll([b], parse) == Some([y]);
    var x := parse(a).value;
    assert [x] + [y] == [x, y];
  }

  /** Text without the separator is a single piece. */
  lemma {:induction false} SplitWithoutSeparator(s: string, sep: char)
    requires sep !in s
    ensures Split(s, sep) == [s]
    decreases |s|
  {
    if |s| > 0 {
      SplitWithoutSeparator(s[1..], sep);
      assert [s[0]] + s[1..] == s;
    }
  }

  /** A separator-free prefix followed by the separator is the first piece. */
  lemma {:induction false} SplitAfterSeparator(a: string, sep: char, b: string)
    requires sep !in a
    ensures Split(a + [sep] + b, sep) == [a] + Split(b, sep)
    decreases |a|
  {
    var s := a + [sep] + b;
    if |a| == 0 {
      assert s == [sep] + b;
      assert s[1..] == b;
    } else {
      assert s[1..] == a[1..] + [sep] + b;
      SplitAfterSeparator(a[1..], sep, b);
      assert [a[0]] + a[1..] == a;
    }
  }
}
