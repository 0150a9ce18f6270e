/**
 * The command-line options of the extraction tool (retrieveOptions): the
 * parsed option map, the checks made on it, the normalisation of the output
 * directory and the unit conversion of the coordinates.
 */
module ExtractOptions {
  import opened Basics

  /** A parsed option value, by the type the option is declared with. */
  datatype OptionValue =
    | Flag                    // an option without a value
    | UInt(n: nat)            // uint64_t / unsigned int
    | Reals(values: seq<real>) // a multitoken vector<Real>
    | Text(text: string)      // string
    | Texts(texts: seq<string>) // vector<string>

  /** The variables map: the options given on the command line, by name. */
  type VariablesMap = map<string, OptionValue>

  /** Every key of the map is a declared option, holding a value of the declared type. */
  predicate WellTyped(vm: VariablesMap)
  {
    forall key | key in vm :: DeclaredAs(key, vm[key])
  }

  /** The options the tool declares and the type of each. */
  predicate DeclaredAs(key: string, v: OptionValue)
  {
    match key
    case "help" => v.Flag?
    case "cellid" => v.UInt? && v.n < UINT64_MODULUS
    case "rotate" => v.Flag?
    case "plasmaFrame" => v.Flag?
    case "coordinates" => v.Reals?
    case "unit" => v.Text?
    case "point1" => v.Reals?
    case "point2" => v.Reals?
    case "pointamount" => v.UInt? && v.n < UINT32_MODULUS
    case "outputdirectory" => v.Texts?
    case _ => false
  }

  /** The options the tool runs with (the UserOptions class). */
  datatype UserOptions = UserOptions(
    fromLine: bool,
    fromInput: bool,
    fromCoordinates: bool,
    rotate: bool,
    plasmaFrame: bool,
    cellId: nat,
    pointsInLine: nat,
    outputDirectory: seq<string>,
    coordinates: seq<real>,
    point1: seq<real>,
    point2: seq<real>)

  /**
   * The options as the UserOptions constructor leaves them: no source of the
   * cell ID, no rotation, the cell ID "none", no point count and no output
   * directory. The constructor leaves plasmaFrame and the coordinate arrays
   * unset; here they are given.
   */
  function DefaultOptions(plasmaFrame: bool, coordinates: seq<real>, point1: seq<real>, point2: seq<real>): (o: UserOptions)
    ensures !o.fromLine && !o.fromInput && !o.fromCoordinates && !o.rotate
    ensures o.cellId == UINT64_MODULUS - 1 && o.pointsInLine == 0 && o.outputDirectory == []
  {
    UserOptions(false, false, false, false, plasmaFrame, UINT64_MODULUS - 1, 0, [], coordinates, point1, point2)
  }

  /** Why retrieveOptions returns false. */
  datatype Reason =
    | NotFresh          // the options passed in were already set
    | Help              // help was asked for
    | DirectoryCount    // outputdirectory given more than once
    | MixedSeparators   // both '/' and '\' in the directory
    | UnknownUnit       // a unit other than re, km and m
    | NothingToConvert  // a unit without coordinates or a line
    | NotOneSource      // not exactly one way of finding the cell ID

  /** What retrieveOptions does: return false, return true with the options, or stop the program. */
  datatype Outcome = Rejected(reason: Reason) | Accepted(options: UserOptions) | Exit

  /** An intermediate state of the checks: stopped with a reason, or going on with the options so far. */
  datatype Step = Stop(reason: Reason) | Go(options: UserOptions)

  // ---------------------------------------------------------------------------
  // The output directory

  predicate IsSeparator(c: char)
  {
    c == '/' || c == '\\'
  }

  predicate EndsWithSeparator(path: string)
  {
    path != [] && IsSeparator(path[|path| - 1])
  }

  /** find_last_of("/\\"): the index of the last separator, if any. */
  function LastSeparator(path: string): (r: Option<nat>)
    ensures r.Some? ==> (r.value < |path| && IsSeparator(path[r.value])
                         && forall q :: r.value < q < |path| ==> !IsSeparator(path[q]))
    ensures r.None? ==> forall q :: 0 <= q < |path| ==> !IsSeparator(path[q])
  {
    if path == [] then None
    else if IsSeparator(path[|path| - 1]) then Some(|path| - 1)
    else LastSeparator(path[..|path| - 1])
  }

  /**
   * The directory with a separator appended, as retrieveOptions does it: the
   * index of the last separator is stored in a 32-bit unsigned (so "not
   * found" becomes 2^32 - 1) and compared with length() - 1 in 64-bit
   * arithmetic. A path whose last separator is not its last character gets
   * '/' if it holds a '/', '\' otherwise, and is refused if it holds both.
   * For paths shorter than 2^32 this appends a separator exactly when the
   * path does not end with one, so the empty path becomes "\".
   */
  function NormaliseDirectory(path: string): (r: Option<string>)
    ensures |path| < UINT32_MODULUS ==>
      (r.None? <==> !EndsWithSeparator(path) && '/' in path && '\\' in path)
    ensures r.Some? ==> r.value in {path, path + "/", path + "\\"}
    ensures |path| < UINT32_MODULUS && r.Some? ==>
      (EndsWithSeparator(r.value) && (EndsWithSeparator(path) <==> r.value == path))
  {
    var index := match LastSeparator(path)
      case None => UINT32_MODULUS - 1
      case Some(i) => i % UINT32_MODULUS;
    var last := (|path| + UINT64_MODULUS - 1) % UINT64_MODULUS;
    assert |path| < UINT32_MODULUS ==> (index == last <==> EndsWithSeparator(path)) by {
      if |path| < UINT32_MODULUS {
        assert path != [] ==> last == |path| - 1;
      }
    }
    if index == last then Some(path)
    else if '/' in path && '\\' in path then None
    else if '/' in path then Some(path + "/")
    else Some(path + "\\")
  }

  /** Normalising a normalised directory changes nothing. */
  lemma NormaliseDirectoryIdempotent(path: string)
    requires |path| + 1 < UINT32_MODULUS && NormaliseDirectory(path).Some?
    ensures NormaliseDirectory(NormaliseDirectory(path).value) == NormaliseDirectory(path)
  {
  }

  /** The separator appended is the one the path already uses. */
  lemma NormaliseDirectoryKeepsSeparator(path: string)
    requires |path| < UINT32_MODULUS && NormaliseDirectory(path).Some? && !EndsWithSeparator(path)
    ensures '/' in path ==> NormaliseDirectory(path).value == path + "/"
    ensures '/' !in path ==> NormaliseDirectory(path).value == path + "\\"
  {
  }

  // ---------------------------------------------------------------------------
  // Units

  /** The factor a unit name multiplies coordinates by: Earth radii, kilometres or metres. */
  function UnitFactor(unit: string): (f: Option<real>)
    ensures f.Some? <==> unit in {"re", "km", "m"}
    ensures f.Some? ==> f.value >= 1.0
  {
    if unit == "re" then Some(6371000.0)
    else if unit == "km" then Some(1000.0)
    else if unit == "m" then Some(1.0)
    else None
  }

  /** Each coordinate multiplied by a factor. */
  function Scale(v: seq<real>, f: real): (r: seq<real>)
    ensures |r| == |v| && forall i :: 0 <= i < |v| ==> r[i] == v[i] * f
  {
    seq(|v|, i requires 0 <= i < |v| => v[i] * f)
  }

  // ---------------------------------------------------------------------------
  // The steps of retrieveOptions

  /** The options passed in hold nothing yet. */
  predicate Fresh(o: UserOptions)
  {
    !o.fromCoordinates && !o.rotate && !o.plasmaFrame && !o.fromInput && !o.fromLine && o.outputDirectory == []
  }

  /** The option is given with exactly three values. */
  predicate IsTriple(vm: VariablesMap, key: string)
  {
    key in vm && vm[key].Reals? && |vm[key].values| == 3
  }

  /** coordinates: used only when given with exactly three values. */
  function ReadCoordinates(vm: VariablesMap, o: UserOptions): (r: UserOptions)
    requires WellTyped(vm)
    ensures IsTriple(vm, "coordinates") ==> r == o.(coordinates := vm["coordinates"].values, fromCoordinates := true)
    ensures !IsTriple(vm, "coordinates") ==> r == o
  {
    if IsTriple(vm, "coordinates") then o.(coordinates := vm["coordinates"].values, fromCoordinates := true) else o
  }

  /**
   * point1 and point2: used only when both are given with exactly three
   * values; the number of points along the line is then read under
   * amountKey, if it is given there.
   */
  function ReadLine(vm: VariablesMap, o: UserOptions, amountKey: string): (r: UserOptions)
    requires WellTyped(vm)
    ensures r.(point1 := o.point1, point2 := o.point2, pointsInLine := o.pointsInLine, fromLine := o.fromLine) == o
    ensures r.fromLine <==> o.fromLine || (IsTriple(vm, "point1") && IsTriple(vm, "point2"))
    ensures r.pointsInLine ==
      if IsTriple(vm, "point1") && IsTriple(vm, "point2") && amountKey in vm && vm[amountKey].UInt?
      then vm[amountKey].n else o.pointsInLine
  {
    if IsTriple(vm, "point1") && IsTriple(vm, "point2") then
      o.(point1 := vm["point1"].values, point2 := vm["point2"].values,
         pointsInLine := if amountKey in vm && vm[amountKey].UInt? then vm[amountKey].n else o.pointsInLine,
         fromLine := true)
    else o
  }

  /** rotate, plasmaFrame and cellid. */
  function ReadFlags(vm: VariablesMap, o: UserOptions): (r: UserOptions)
    requires WellTyped(vm)
    ensures r.(rotate := o.rotate, plasmaFrame := o.plasmaFrame, cellId := o.cellId, fromInput := o.fromInput) == o
    ensures r.rotate <==> o.rotate || "rotate" in vm
    ensures r.plasmaFrame <==> o.plasmaFrame || "plasmaFrame" in vm
    ensures r.fromInput <==> o.fromInput || "cellid" in vm
    ensures r.cellId == if "cellid" in vm then vm["cellid"].n else o.cellId
  {
    var r := if "rotate" in vm then o.(rotate := true) else o;
    var r := if "plasmaFrame" in vm then r.(plasmaFrame := true) else r;
    if "cellid" in vm then r.(cellId := vm["cellid"].n, fromInput := true) else r
  }

  /** The options that cannot fail, in the order retrieveOptions reads them. */
  function ReadSources(vm: VariablesMap, init: UserOptions, amountKey: string): (o: UserOptions)
    requires WellTyped(vm)
    ensures o.fromCoordinates <==> init.fromCoordinates || IsTriple(vm, "coordinates")
    ensures o.fromLine <==> init.fromLine || (IsTriple(vm, "point1") && IsTriple(vm, "point2"))
    ensures o.fromInput <==> init.fromInput || "cellid" in vm
    ensures o.rotate <==> init.rotate || "rotate" in vm
    ensures o.plasmaFrame <==> init.plasmaFrame || "plasmaFrame" in vm
    ensures o.cellId == if "cellid" in vm then vm["cellid"].n else init.cellId
    ensures o.pointsInLine ==
      if IsTriple(vm, "point1") && IsTriple(vm, "point2") && amountKey in vm && vm[amountKey].UInt?
      then vm[amountKey].n else init.pointsInLine
    ensures o.outputDirectory == init.outputDirectory
  {
    ReadFlags(vm, ReadLine(vm, ReadCoordinates(vm, init), amountKey))
  }

  /**
   * outputdirectory: given, it must hold one path, which is normalised;
   * not given, the empty path (the current directory) is added.
   */
  function ReadDirectory(vm: VariablesMap, o: UserOptions): (s: Step)
    requires WellTyped(vm)
    ensures s.Stop? ==> "outputdirectory" in vm
    ensures s.Go? ==> s.options == o.(outputDirectory := s.options.outputDirectory)
    ensures s.Go? && "outputdirectory" in vm ==> |s.options.outputDirectory| == 1
    ensures "outputdirectory" !in vm ==> s == Go(o.(outputDirectory := o.outputDirectory + [""]))
  {
    if "outputdirectory" in vm then
      var paths := vm["outputdirectory"].texts;
      if |paths| != 1 then Stop(DirectoryCount)
      else match NormaliseDirectory(paths[0])
        case None => Stop(MixedSeparators)
        case Some(path) => Go(o.(outputDirectory := [path]))
    else Go(o.(outputDirectory := o.outputDirectory + [""]))
  }

  /**
   * unit: an unknown unit is refused; a known one scales the end points of
   * the line if a line was given, else the coordinates if they were given,
   * and is refused if neither was.
   */
  function ApplyUnit(vm: VariablesMap, o: UserOptions): (s: Step)
    requires WellTyped(vm)
    ensures "unit" !in vm ==> s == Go(o)
    ensures s.Stop? <==> "unit" in vm && (UnitFactor(vm["unit"].text).None? || (!o.fromLine && !o.fromCoordinates))
    ensures s.Go? ==> s.options.(coordinates := o.coordinates, point1 := o.point1, point2 := o.point2) == o
  {
    if "unit" !in vm then Go(o)
    else match UnitFactor(vm["unit"].text)
      case None => Stop(UnknownUnit)
      case Some(f) =>
        if o.fromLine then Go(o.(point1 := Scale(o.point1, f), point2 := Scale(o.point2, f)))
        else if o.fromCoordinates then Go(o.(coordinates := Scale(o.coordinates, f)))
        else Stop(NothingToConvert)
  }

  /** The number of ways of finding the cell ID the options ask for. */
  function SourceCount(o: UserOptions): nat
  {
    (if o.fromLine then 1 else 0) + (if o.fromInput then 1 else 0) + (if o.fromCoordinates then 1 else 0)
  }

  /**
   * retrieveOptions on a parsed variables map, reading the point count under
   * amountKey. Accepted options name exactly one way of finding the cell ID,
   * carry exactly the flags and the cell ID given, and one output directory
   * that is empty or ends with a separator; help, given to fresh options,
   * always refuses.
   */
  function Retrieve(vm: VariablesMap, init: UserOptions, amountKey: string): (r: Outcome)
    requires WellTyped(vm)
    ensures Fresh(init) && "help" in vm ==> r == Rejected(Help)
    ensures r.Accepted? ==> Fresh(init) && "help" !in vm && SourceCount(r.options) == 1
    ensures r.Accepted? ==> ((r.options.fromCoordinates <==> IsTriple(vm, "coordinates"))
                             && (r.options.fromInput <==> "cellid" in vm)
                             && (r.options.rotate <==> "rotate" in vm)
                             && (r.options.plasmaFrame <==> "plasmaFrame" in vm))
    ensures r.Accepted? && "cellid" in vm ==> r.options.cellId == vm["cellid"].n
    ensures r.Accepted? ==> (|r.options.outputDirectory| == 1
                             && (r.options.outputDirectory[0] == "" || EndsWithSeparator(r.options.outputDirectory[0])
                                 || |r.options.outputDirectory[0]| >= UINT32_MODULUS))
  {
    if !Fresh(init) then Rejected(NotFresh)
    else if "help" in vm then Rejected(Help)
    else
      var o := ReadSources(vm, init, amountKey);
      match ReadDirectory(vm, o)
      case Stop(reason) => Rejected(reason)
      case Go(o) =>
        assert "outputdirectory" in vm ==> |vm["outputdirectory"].texts| == 1;
        match ApplyUnit(vm, o)
        case Stop(reason) => Rejected(reason)
        case Go(o) =>
          if SourceCount(o) != 1 then Rejected(NotOneSource)
          else if |o.outputDirectory| != 1 then Exit
          else Accepted(o)
  }

  /** retrieveOptions as written: the point count is looked up under "pointAmount". */
  function RetrieveOptionsAsWritten(vm: VariablesMap, init: UserOptions): (r: Outcome)
    requires WellTyped(vm)
    ensures r.Accepted? ==> r.options.pointsInLine == init.pointsInLine
  {
    Retrieve(vm, init, "pointAmount")
  }

  /** retrieveOptions with the point count looked up under the declared name "pointamount". */
  function RetrieveOptions(vm: VariablesMap, init: UserOptions): (r: Outcome)
    requires WellTyped(vm)
    ensures r.Accepted? && r.options.fromLine && "pointamount" in vm ==> r.options.pointsInLine == vm["pointamount"].n
    ensures r.Accepted? && "pointamount" !in vm ==> r.options.pointsInLine == init.pointsInLine
  {
    Retrieve(vm, init, "pointamount")
  }

  /** The program is never stopped: a fresh start always ends with exactly one output directory. */
  lemma RetrieveNeverExits(vm: VariablesMap, init: UserOptions, amountKey: string)
    requires WellTyped(vm)
    ensures Retrieve(vm, init, amountKey) != Exit
  {
  }

  /** A line from (0, 0, 0) to (1, 1, 1) with fifty points. */
  function LineWithFiftyPoints(): (vm: VariablesMap)
    ensures WellTyped(vm)
  {
    map["point1" := Reals([0.0, 0.0, 0.0]), "point2" := Reals([1.0, 1.0, 1.0]), "pointamount" := UInt(50)]
  }

  /**
   * Asked for fifty points along a line, retrieveOptions as written keeps the
   * point count at 0; read under the declared name, it is 50.
   */
  lemma PointAmountIgnored()
    ensures RetrieveOptionsAsWritten(LineWithFiftyPoints(), DefaultOptions(false, [], [], [])).Accepted?
    ensures RetrieveOptionsAsWritten(LineWithFiftyPoints(), DefaultOptions(false, [], [], [])).options.pointsInLine == 0
    ensures RetrieveOptions(LineWithFiftyPoints(), DefaultOptions(false, [], [], [])).options.pointsInLine == 50
  {
    var vm := LineWithFiftyPoints();
    assert IsTriple(vm, "point1") && IsTriple(vm, "point2") && !IsTriple(vm, "coordinates");
  }
}
