/**
 * The names of the files the extraction tool writes for one cell: the
 * input file's name with everything before its first '.' replaced by
 * "velgrid.", the tags of the options in use and the cell ID; the slice
 * name with "VelSlice" in the same place; and the path in the output
 * directory.
 */
module ExtractNaming {
  import opened Basics

  predicate IsDigit(c: char)
  {
    '0' <= c <= '9'
  }

  function Digit(d: nat): (c: char)
    requires d < 10
    ensures IsDigit(c)
  {
    "0123456789"[d]
  }

  /** The decimal digits of n, as a stream writes an unsigned integer. */
  function Decimal(n: nat): (s: string)
    ensures |s| >= 1 && forall q :: 0 <= q < |s| ==> IsDigit(s[q])
    ensures (|s| == 1) == (n < 10)
  {
    if n < 10 then [Digit(n)] else Decimal(n / 10) + [Digit(n % 10)]
  }

  /** Different numbers have different decimal forms. */
  lemma {:induction false} DecimalInjective(a: nat, b: nat)
    requires Decimal(a) == Decimal(b)
    ensures a == b
    decreases a
  {
    var s := Decimal(a);
    if a >= 10 && b >= 10 {
      assert Decimal(a / 10) == s[..|s| - 1] == Decimal(b / 10);
      DecimalInjective(a / 10, b / 10);
      assert "0123456789"[a % 10] == s[|s| - 1] == "0123456789"[b % 10];
    } else {
      assert "0123456789"[a] == s[0] == "0123456789"[b];
    }
  }

  /** find: the first index of c in s, if any. */
  function FindChar(s: string, c: char): (r: Option<nat>)
    ensures r.Some? ==> r.value < |s| && s[r.value] == c && c !in s[..r.value]
    ensures r.None? <==> c !in s
  {
    if s == [] then None
    else if s[0] == c then Some(0)
    else match FindChar(s[1..], c)
      case None => None
      case Some(i) => assert s[1..][..i] == s[1..i + 1]; Some(i + 1)
  }

  /** pattern occurs in s starting at q. */
  predicate MatchesAt(s: string, q: int, pattern: string)
  {
    0 <= q && q + |pattern| <= |s| && s[q..q + |pattern|] == pattern
  }

  /** rfind: the last index at which pattern starts in s, if any. */
  function RFind(s: string, pattern: string): (r: Option<nat>)
    ensures r.Some? ==> MatchesAt(s, r.value, pattern) && forall q :: r.value < q && MatchesAt(s, q, pattern) ==> false
    ensures r.None? ==> forall q :: !MatchesAt(s, q, pattern)
  {
    RFindBelow(s, pattern, |s| + 1)
  }

  /** The last index below limit at which pattern starts in s. */
  function RFindBelow(s: string, pattern: string, limit: nat): (r: Option<nat>)
    requires limit <= |s| + 1
    ensures r.Some? ==> (r.value < limit && MatchesAt(s, r.value, pattern)
                         && forall q :: r.value < q < limit && MatchesAt(s, q, pattern) ==> false)
    ensures r.None? ==> forall q :: q < limit && MatchesAt(s, q, pattern) ==> false
    decreases limit
  {
    if limit == 0 then None
    else if MatchesAt(s, limit - 1, pattern) then Some(limit - 1)
    else RFindBelow(s, pattern, limit - 1)
  }

  /** string::replace(pos, len, t) with pos + len inside the string. */
  function Replace(s: string, pos: nat, len: nat, t: string): (r: string)
    requires pos + len <= |s|
    ensures |r| == |s| - len + |t|
    ensures r[..pos] == s[..pos] && r[pos..pos + |t|] == t && r[pos + |t|..] == s[pos + len..]
  {
    s[..pos] + t + s[pos + len..]
  }

  const SUFFIX: string := ".vlsv"

  /**
   * The first replacement of the naming: the last ".vlsv" is replaced by the
   * new suffix, which is ".vlsv" again, so the name does not change.
   */
  function ReplaceSuffix(fileName: string): (r: string)
    ensures r == fileName
  {
    match RFind(fileName, SUFFIX)
    case None => fileName
    case Some(pos) =>
      assert fileName == fileName[..pos] + SUFFIX + fileName[pos + |SUFFIX|..];
      Replace(fileName, pos, |SUFFIX|, SUFFIX)
  }

  /** "velgrid.", then "rotated." and "shifted." for the options in use, then the cell ID. */
  function NamePrefix(rotate: bool, shift: bool, cellID: nat): (p: string)
    ensures p == Tags(rotate, shift) + Decimal(cellID)
  {
    "velgrid." + (if rotate then "rotated." else "") + (if shift then "shifted." else "") + Decimal(cellID)
  }

  /** The tags of a name, up to the cell ID. */
  function Tags(rotate: bool, shift: bool): string
  {
    "velgrid." + (if rotate then "rotated." else "") + (if shift then "shifted." else "")
  }

  /**
   * The name of the file written for one cell: the text of the input file's
   * name before its first '.' is replaced by the prefix. A name without '.'
   * is kept as it is.
   */
  function OutputFileName(fileName: string, rotate: bool, shift: bool, cellID: nat): (name: string)
    ensures '.' !in fileName ==> name == fileName
    ensures '.' in fileName ==>
      exists pos :: (0 <= pos < |fileName| && fileName[pos] == '.' && '.' !in fileName[..pos]
                     && name == NamePrefix(rotate, shift, cellID) + fileName[pos..])
  {
    var renamed := ReplaceSuffix(fileName);
    match FindChar(renamed, '.')
    case None => renamed
    case Some(pos) => Replace(renamed, 0, pos, NamePrefix(rotate, shift, cellID))
  }

  /** The name of the velocity slice mesh: the text before the first '.' is replaced by "VelSlice". */
  function SliceName(fileName: string): (name: string)
    ensures '.' !in fileName ==> name == fileName
    ensures '.' in fileName ==>
      exists pos :: (0 <= pos < |fileName| && fileName[pos] == '.' && '.' !in fileName[..pos]
                     && name == "VelSlice" + fileName[pos..])
  {
    match FindChar(fileName, '.')
    case None => fileName
    case Some(pos) => Replace(fileName, 0, pos, "VelSlice")
  }

  /** The path of the file written for one cell: the output directory, then the name. */
  function OutputFilePath(directory: string, fileName: string, rotate: bool, shift: bool, cellID: nat): (path: string)
    ensures |path| >= |directory| && path[..|directory|] == directory
  {
    directory + OutputFileName(fileName, rotate, shift, cellID)
  }

  /** The name keeps the input's extension: everything from its first '.' on. */
  lemma OutputFileNameKeepsExtension(fileName: string, rotate: bool, shift: bool, cellID: nat, pos: nat)
    requires FindChar(fileName, '.') == Some(pos)
    ensures OutputFileName(fileName, rotate, shift, cellID) == NamePrefix(rotate, shift, cellID) + fileName[pos..]
  {
  }

  /** Names that end alike and are equal have equal beginnings. */
  lemma CancelRight(p: string, p': string, rest: string)
    requires p + rest == p' + rest
    ensures p == p'
  {
    assert p == (p + rest)[..|p|];
    assert p' == (p' + rest)[..|p'|];
  }

  /** Names that begin alike and are equal have equal ends. */
  lemma CancelLeft(d: string, n: string, n': string)
    requires d + n == d + n'
    ensures n == n'
  {
    assert n == (d + n)[|d|..];
    assert n' == (d + n')[|d|..];
  }

  /**
   * For an input whose name holds a '.', different cells get different
   * files: the path determines the cell ID.
   */
  lemma OutputFilePathInjective(directory: string, fileName: string, rotate: bool, shift: bool, a: nat, b: nat)
    requires '.' in fileName
    requires OutputFilePath(directory, fileName, rotate, shift, a) == OutputFilePath(directory, fileName, rotate, shift, b)
    ensures a == b
  {
    var pos := FindChar(fileName, '.').value;
    var rest := fileName[pos..];
    CancelLeft(directory, OutputFileName(fileName, rotate, shift, a), OutputFileName(fileName, rotate, shift, b));
    OutputFileNameKeepsExtension(fileName, rotate, shift, a, pos);
    OutputFileNameKeepsExtension(fileName, rotate, shift, b, pos);
    CancelRight(NamePrefix(rotate, shift, a), NamePrefix(rotate, shift, b), rest);
    CancelLeft(Tags(rotate, shift), Decimal(a), Decimal(b));
    DecimalInjective(a, b);
  }
}
