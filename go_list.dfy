/** The plugin's view of `go list`: which import list it reads for a package and for a
    file. The process itself is an oracle given as a parameter. */
module GoList {
  import opened Wrappers
  import opened Strings
  import opened Paths

  /** The fields the plugin's templates read from `go list`; an absent list is None. */
  datatype GoPackage = GoPackage(imports: Option<seq<string>>, testImports: Option<seq<string>>)

  /** `go list` run on a package directory or a file: the package it reports, or Failure
      when the process exits non-zero or its output does not parse as JSON. */
  type Oracle = string -> Result<GoPackage>

  /** `list || []`: an absent import list reads as an empty one. */
  function OrEmpty(list: Option<seq<string>>): (r: seq<string>)
    ensures list.None? ==> r == []
    ensures list.Some? ==> r == list.value
  {
    list.GetOr([])
  }

  /** A test file is one whose base name, `.go` removed, ends in `_test`. */
  predicate IsTestFile(file: string) {
    EndsWith(BaseName(file, ".go"), "_test")
  }

  /** `getImportsOfPackage`: the production imports of the package in `goPackage`. */
  function ImportsOfPackage(goList: Oracle, goPackage: string): (r: Result<seq<string>>)
    ensures r.Failure? <==> goList(goPackage).Failure?
    ensures r.Success? ==> r.value == OrEmpty(goList(goPackage).value.imports)
  {
    match goList(goPackage)
    case Failure => Failure
    case Success(pkg) => Success(OrEmpty(pkg.imports))
  }

  /** `getImportsOfFile`: a test file reads the test imports of its package, any other
      file the production imports. */
  function ImportsOfFile(goList: Oracle, file: string): (r: Result<seq<string>>)
    ensures r.Failure? <==> goList(file).Failure?
    ensures r.Success? && IsTestFile(file) ==> r.value == OrEmpty(goList(file).value.testImports)
    ensures r.Success? && !IsTestFile(file) ==> r.value == OrEmpty(goList(file).value.imports)
  {
    match goList(file)
    case Failure => Failure
    case Success(pkg) =>
      if IsTestFile(file) then Success(OrEmpty(pkg.testImports)) else Success(OrEmpty(pkg.imports))
  }

  /** A `.go` file's last segment is its base name followed by `.go`. */
  lemma GoFileSegment(file: string)
    requires ExtName(file) == ".go"
    ensures BaseName(file, ".go") + ".go" == LastSegment(file)
  {
    var seg := LastSegment(file);
    ExtNameShape(file);
    assert file != ".go";
    assert StripsExt(seg, ".go");
    BaseNameShape(file, ".go");
  }

  /** For a file the plugin keeps (extension `.go`), being a test file is exactly
      ending in `_test.go`. */
  lemma GoFileIsTestExactly(file: string)
    requires ExtName(file) == ".go"
    ensures IsTestFile(file) <==> EndsWith(file, "_test.go")
  {
    GoFileSegment(file);
    LastSegmentShape(file);
    var seg, b := LastSegment(file), BaseName(file, ".go");
    if EndsWith(b, "_test") {
      TestStemEndsPath(file, seg, b);
    }
    if EndsWith(file, "_test.go") {
      TestPathEndsStem(file, seg, b);
    }
  }

  /** A segment `b + ".go"` at the end of `file`, with `b` ending in `_test`. */
  lemma TestStemEndsPath(file: string, seg: string, b: string)
    requires b + ".go" == seg && EndsWith(file, seg)
    requires EndsWith(b, "_test")
    ensures EndsWith(file, "_test.go")
  {
    assert seg[|seg| - 8..] == b[|b| - 5..] + ".go";
    assert file[|file| - 8..] == seg[|seg| - 8..];
  }

  /** A '/'-free segment `b + ".go"` that ends `file` after a '/' (or is all of it). */
  lemma TestPathEndsStem(file: string, seg: string, b: string)
    requires b + ".go" == seg && EndsWith(file, seg)
    requires forall j :: 0 <= j < |seg| ==> seg[j] != '/'
    requires |seg| < |file| ==> file[|file| - |seg| - 1] == '/'
    requires EndsWith(file, "_test.go")
    ensures EndsWith(b, "_test")
  {
    assert file[|file| - 8..] == "_test.go";
    assert |seg| >= 8;
    assert seg[|seg| - 8..] == file[|file| - 8..];
    assert b[|b| - 5..] == seg[|seg| - 8..|seg| - 3];
  }
}
