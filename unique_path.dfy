/** `get_unique_path`: choosing a name that does not exist yet by appending
    `_1`, `_2`, ... to the name's stem. The file system's `os.path.exists`
    is modelled by the finite set of names already taken. */
module UniquePath {
  import opened Text

  /** Index of the last `c` in `s`, or -1 (Python's `str.rfind`). */
  function RFind(s: string, c: char): (r: int)
    ensures -1 <= r < |s|
    ensures r >= 0 ==> s[r] == c
    ensures forall i :: r < i < |s| ==> s[i] != c
  {
    if |s| == 0 then -1
    else if s[|s| - 1] == c then |s| - 1
    else RFind(s[..|s| - 1], c)
  }

  /** `os.path.splitext` on POSIX: the extension is the text from the last
      dot of the last path component, unless that component consists of
      dots up to there (a leading-dot name such as `.vasp` has no
      extension). */
  function SplitExt(p: string): (r: (string, string))
    ensures r.0 + r.1 == p
    ensures r.1 == [] || (r.1[0] == '.' && '/' !in r.1)
  {
    var sepIndex := RFind(p, '/');
    var dotIndex := RFind(p, '.');
    if dotIndex > sepIndex && exists i :: sepIndex + 1 <= i < dotIndex && p[i] != '.' then
      (p[..dotIndex], p[dotIndex..])
    else
      (p, [])
  }

  /** The extension is the last dot-suffix: it holds no further dot, the
      last component has a character other than a dot before it, and
      there is no extension exactly when every dot of the last component
      is in its leading run of dots. */
  lemma SplitExtIsLastDotSuffix(p: string)
    ensures SplitExt(p).1 != [] ==> '.' !in SplitExt(p).1[1..]
    ensures SplitExt(p).1 != [] ==> exists i :: RFind(p, '/') < i < |SplitExt(p).0| && p[i] != '.'
    ensures SplitExt(p).1 == [] ==> forall i, j :: RFind(p, '/') < i < j < |p| && p[j] == '.' ==> p[i] == '.'
  {
  }

  /** `f"{base}_{counter}{extension}"`. */
  function Candidate(base: string, counter: nat, extension: string): string
  {
    base + "_" + NatToString(counter) + extension
  }

  /** Different counters give different names. */
  lemma CandidateInjective(base: string, j: nat, k: nat, extension: string)
    ensures Candidate(base, j, extension) == Candidate(base, k, extension) ==> j == k
  {
    var cj, ck := Candidate(base, j, extension), Candidate(base, k, extension);
    if cj == ck {
      var dj, dk := NatToString(j), NatToString(k);
      assert |dj| == |dk|;
      assert cj[|base| + 1..|base| + 1 + |dj|] == dj;
      assert ck[|base| + 1..|base| + 1 + |dk|] == dk;
      NatToStringInjective(j, k);
    }
  }

  /** No candidate is the name it was derived from, with or without the
      extension kept. */
  lemma CandidateIsNotOriginal(p: string, k: nat, keepExtension: bool)
    ensures Candidate(SplitExt(p).0, k, if keepExtension then SplitExt(p).1 else []) != p
  {
    var base, extension := SplitExt(p).0, SplitExt(p).1;
    var c := Candidate(base, k, if keepExtension then extension else []);
    if |c| == |p| {
      assert !keepExtension && |extension| > 0;
      assert c[|base|] == '_';
      assert p[|base|] == extension[0];
    }
  }

  /** The name `get_unique_path` (the variant that keeps the extension)
      tries after `k` failures. */
  function FileCandidate(filename: string, k: nat): string
  {
    Candidate(SplitExt(filename).0, k, SplitExt(filename).1)
  }

  /** The name the variant that drops the extension tries after `k` failures. */
  function DirectoryCandidate(directory: string, k: nat): string
  {
    Candidate(SplitExt(directory).0, k, [])
  }

  /** After the names before `counter` were tried, the next candidate is
      not among them. */
  lemma NextUntried(p: string, counter: nat, extension: string, tried: set<string>)
    requires counter >= 1
    requires extension == SplitExt(p).1 || extension == []
    requires forall x :: x in tried ==>
      x == p || exists j :: 1 <= j < counter && x == Candidate(SplitExt(p).0, j, extension)
    ensures Candidate(SplitExt(p).0, counter, extension) !in tried
  {
    var c := Candidate(SplitExt(p).0, counter, extension);
    CandidateIsNotOriginal(p, counter, extension == SplitExt(p).1);
    if c in tried {
      var j :| 1 <= j < counter && c == Candidate(SplitExt(p).0, j, extension);
      CandidateInjective(SplitExt(p).0, j, counter, extension);
    }
  }

  /** `get_unique_path(directory, filename)` of the domain-wall builder:
      the file name itself when it is free, else `base_k + extension` for
      the least `k >= 1` that is free. */
  method UniqueFileName(taken: set<string>, filename: string) returns (unique: string)
    ensures unique !in taken
    ensures filename !in taken ==> unique == filename
    ensures filename in taken ==>
      exists k :: 1 <= k && unique == FileCandidate(filename, k) &&
        forall j :: 1 <= j < k ==> FileCandidate(filename, j) in taken
  {
    var base, extension := SplitExt(filename).0, SplitExt(filename).1;
    var counter := 1;
    unique := filename;
    ghost var tried: set<string> := {};
    while unique in taken
      invariant counter >= 1
      invariant unique == if counter == 1 then filename else FileCandidate(filename, counter - 1)
      invariant counter > 1 ==> filename in taken
      invariant forall j :: 1 <= j < counter - 1 ==> FileCandidate(filename, j) in taken
      invariant tried <= taken
      invariant forall x :: x in tried ==>
        x == filename || exists j :: 1 <= j < counter - 1 && x == Candidate(base, j, extension)
      invariant unique !in tried
      decreases taken - tried
    {
      tried := tried + {unique};
      assert counter > 1 ==> unique == Candidate(base, counter - 1, extension);
      NextUntried(filename, counter, extension, tried);
      unique := Candidate(base, counter, extension);
      counter := counter + 1;
    }
    assert counter > 1 ==> unique == FileCandidate(filename, counter - 1);
  }

  /** `get_unique_path(directory)` of the interface and rotation builders:
      the path itself when it is free, else `base_k` for the least `k >= 1`
      that is free; the extension is dropped and the base is computed once. */
  method UniqueDirectory(taken: set<string>, directory: string) returns (unique: string)
    ensures unique !in taken
    ensures directory !in taken ==> unique == directory
    ensures directory in taken ==>
      exists k :: 1 <= k && unique == DirectoryCandidate(directory, k) &&
        forall j :: 1 <= j < k ==> DirectoryCandidate(directory, j) in taken
  {
    if directory !in taken {
      return directory;
    }
    var base := SplitExt(directory).0;
    var counter := 1;
    unique := directory;
    ghost var tried: set<string> := {};
    while unique in taken
      invariant counter >= 1
      invariant unique == if counter == 1 then directory else DirectoryCandidate(directory, counter - 1)
      invariant forall j :: 1 <= j < counter - 1 ==> DirectoryCandidate(directory, j) in taken
      invariant tried <= taken
      invariant forall x :: x in tried ==>
        x == directory || exists j :: 1 <= j < counter - 1 && x == Candidate(base, j, [])
      invariant unique !in tried
      decreases taken - tried
    {
      tried := tried + {unique};
      assert counter > 1 ==> unique == Candidate(base, counter - 1, []);
      NextUntried(directory, counter, [], tried);
      unique := Candidate(base, counter, []);
      counter := counter + 1;
    }
    assert counter > 1 && unique == DirectoryCandidate(directory, counter - 1);
  }
}
