/**
 * The DaSpec JUnit XML formatter: a report builder that listens to a specification
 * runner's `specEnded` and `suiteEnded` events, counts executed, failed, errored and
 * skipped specs, buffers one `<testcase>` fragment per spec, and on `suiteEnded` wraps the
 * buffer in a `<testsuite>` element and an XML declaration and writes it to the output path
 * resolved from the configuration.
 */
module JunitXmlFormatter {
  import opened Outcomes
  import opened JsString
  import opened PosixPath

  /* ---------------------------------------------------------------- status */

  /** The outcome of one spec, as the report tags it. */
  datatype Status = Error | Failed | Skipped | Passed

  /**
   * The counts a `specEnded` event carries. A field the runner leaves out is 0; JavaScript
   * numbers are modelled as unbounded integers.
   */
  datatype SpecCounts = SpecCounts(passed: int, executed: int, failed: int, error: int, skipped: int)

  /**
   * `specStatus`: the first rule that matches wins — any error, then any failure, then any
   * skip or nothing executed, and passed otherwise.
   */
  function SpecStatus(counts: SpecCounts): (s: Status)
    ensures s == Error <==> counts.error != 0
    ensures s == Failed <==> counts.error == 0 && counts.failed > 0
    ensures s == Skipped <==> counts.error == 0 && counts.failed <= 0 && (counts.skipped > 0 || counts.executed == 0)
    ensures s == Passed <==> counts.error == 0 && counts.failed <= 0 && counts.skipped <= 0 && counts.executed != 0
  {
    if counts.error != 0 then Error
    else if counts.failed > 0 then Failed
    else if counts.skipped > 0 || counts.executed == 0 then Skipped
    else Passed
  }

  /* ---------------------------------------------------------------- names */

  /** `testName`: the spec path without double quotes, reduced to its last component without extension. */
  function TestName(specPath: string): (r: string)
    ensures '"' !in r && Sep !in r
  {
    StemKeepsOut(RemoveAll(specPath, '"'), '"');
    Stem(RemoveAll(specPath, '"'))
  }

  /**
   * The test name is the last component of the unquoted path, cut before its extension: the
   * whole component when it has none (a dotfile such as `.md` has none), and otherwise the
   * non-empty text before its last dot.
   */
  lemma {:induction false} TestNameIsStem(specPath: string)
    ensures var c := LastComponent(RemoveAll(specPath, '"'));
      var r := TestName(specPath);
      && r <= c
      && (!HasExtension(c) ==> r == c)
      && (HasExtension(c) ==> 0 < |r| < |c| && c[|r|] == '.' && '.' !in c[|r| + 1..])
  {
    StemOfComponent(RemoveAll(specPath, '"'));
  }

  /**
   * A spec path without double quotes that ends in a file name `stem.ext` (with or without
   * directories in front) has test name `stem`, when `ext` has no dot and `stem` is a real
   * name rather than empty or `.`.
   */
  lemma {:induction false} TestNameOfExtension(specPath: string, dir: string, stem: string, ext: string)
    requires '"' !in specPath && Sep !in stem + "." + ext
    requires stem != [] && stem != "." && '.' !in ext
    requires specPath == dir + [Sep] + (stem + "." + ext) || specPath == stem + "." + ext
    ensures TestName(specPath) == stem
  {
    LastComponentOfFile(dir, stem + "." + ext);
    StemOfExtension(specPath, stem, ext);
  }

  /**
   * A spec path without double quotes whose file name is a dotfile `.ext` keeps the whole
   * dotfile name as test name: `.ext` is a name, not an extension.
   */
  lemma {:induction false} TestNameOfDotfile(specPath: string, dir: string, ext: string)
    requires '"' !in specPath && Sep !in ext && '.' !in ext && ext != []
    requires specPath == dir + [Sep] + ("." + ext) || specPath == "." + ext
    ensures TestName(specPath) == "." + ext
  {
    LastComponentOfFile(dir, "." + ext);
    var c := "." + ext;
    assert forall k :: 0 < k < |c| ==> c[k] == ext[k - 1];
    StemOfPlainName(specPath);
  }

  /**
   * The spec path as `className` has it just before choosing: normalized, leading dots and
   * every double quote removed, and the root of an absolute path dropped.
   */
  function ClassPath(specPath: string): (r: string)
    ensures '"' !in r
  {
    UnrootedPath(Normalize(specPath))
  }

  /** What `className` keeps of a normalized path: leading dots and double quotes go, then a root. */
  function UnrootedPath(normalized: string): (r: string)
    ensures '"' !in r
  {
    var stripped := RemoveAll(StripLeading(normalized, '.'), '"');
    if IsAbsolute(stripped) then stripped[IndexOf(stripped, Sep) + 1..] else stripped
  }

  /** The classname given to specs whose path has no directory part. */
  const DefaultClassName: string := "daspec"

  /**
   * `className`: `daspec` when no separator is left in the class path, and otherwise its
   * directory part with the FIRST separator turned into a dot (later ones stay).
   */
  function ClassName(specPath: string): (r: string)
    ensures '"' !in r
    ensures Sep !in ClassPath(specPath) ==> r == DefaultClassName
    ensures Sep in ClassPath(specPath) ==>
      var d := Dirname(ClassPath(specPath));
      && |r| == |d|
      && forall k :: 0 <= k < |d| ==> r[k] == (if k == IndexOf(d, Sep) then '.' else d[k])
  {
    ClassNameOfClassPath(ClassPath(specPath))
  }

  /** The choice `className` makes once it has the class path `p`. */
  function ClassNameOfClassPath(p: string): (r: string)
    requires '"' !in p
    ensures '"' !in r
    ensures Sep !in p ==> r == DefaultClassName
    ensures Sep in p ==>
      var d := Dirname(p);
      && |r| == |d|
      && forall k :: 0 <= k < |d| ==> r[k] == (if k == IndexOf(d, Sep) then '.' else d[k])
  {
    if IndexOf(p, Sep) < 0 then DefaultClassName
    else
      var d := Dirname(p);
      DirnameKeepsOut(p, '"');
      ReplaceFirstKeepsOut(d, Sep, '.', '"');
      ReplaceFirst(d, Sep, '.')
  }

  /**
   * When the class path is directories `d1/d2/.../dn` and then a file name, the classname
   * is `d1` for one directory and otherwise `d1.d2/.../dn`: only the first separator
   * becomes a dot.
   */
  lemma {:induction false} ClassNameOfDirs(specPath: string, dirs: seq<string>, file: string)
    requires |dirs| >= 1 && PlainSegments(dirs) && file != [] && Sep !in file
    requires ClassPath(specPath) == Join(dirs, [Sep]) + [Sep] + file
    ensures ClassName(specPath) == if |dirs| == 1 then dirs[0] else dirs[0] + "." + Join(dirs[1..], [Sep])
  {
    var d := Join(dirs, [Sep]);
    var p := ClassPath(specPath);
    assert p[|d|] == Sep;
    ClassNameChoice(specPath);
    DottedDirs(dirs, file);
  }

  /** Segments that hold no double quote and do not start with a dot. */
  predicate UnquotedUndotted(segs: seq<string>)
  {
    |segs| >= 1 && segs[0] != [] && segs[0][0] != '.' && forall i :: 0 <= i < |segs| ==> '"' !in segs[i]
  }

  /**
   * A relative spec path of plain segments, an absolute one, and one that starts with
   * `./../`, all have the segments themselves as class path: `normalize`, stripping the
   * leading dots and dropping the root leave exactly them.
   */
  lemma {:induction false} ClassPathOfPlain(segs: seq<string>)
    requires PlainSegments(segs) && UnquotedUndotted(segs)
    ensures var j := Join(segs, [Sep]);
      && ClassPath(j) == j
      && ClassPath([Sep] + j) == j
      && ClassPath("./../" + j) == j
  {
    var j := Join(segs, [Sep]);
    PlainJoin(segs);
    JoinKeepsOut(segs, [Sep], '"');
    assert j[0] == segs[0][0] by { JoinEnds(segs, [Sep]); }
    NormalizePlain(segs);
    NormalizeRootedPlain(segs);
    NormalizeDotUpPlain(segs);
    ClassPathOfNormal(j, j);
    ClassPathOfNormal([Sep] + j, j);
    assert [Sep] + j == "/" + j;
    ClassPathOfNormal("./../" + j, j);
  }

  /** The class path of a spec path that normalizes to `j`, `/j` or `../j`, with `j` plain. */
  lemma {:induction false} ClassPathOfNormal(specPath: string, j: string)
    requires j != [] && j[0] != '.' && j[0] != Sep && '"' !in j
    requires Normalize(specPath) in {j, "/" + j, "../" + j}
    ensures ClassPath(specPath) == j
  {
    UnrootedNormal(Normalize(specPath), j);
  }

  /** A normalized path that is `j`, `/` then `j`, or `../` then `j` keeps exactly `j`. */
  lemma {:induction false} UnrootedNormal(n: string, j: string)
    requires j != [] && j[0] != '.' && j[0] != Sep && '"' !in j
    requires n in {j, "/" + j, "../" + j}
    ensures UnrootedPath(n) == j
  {
    var s := StripLeading(n, '.');
    if n == j {
      assert s == j;
    } else if n == "/" + j {
      assert s == n;
      assert IndexOf(n, Sep) == 0;
    } else {
      assert n[0] == '.' && n[1] == '.' && n[2] == Sep;
      assert s == "/" + j;
      assert IndexOf(s, Sep) == 0;
    }
  }

  /**
   * The classname of a spec path made of directories and a file name (plain segments, no
   * double quote, not starting with a dot), whether written relative, absolute or behind
   * `./../`: the only directory, or the first directory, a dot, and the others still
   * joined by `/`.
   */
  lemma {:induction false} ClassNameOfPath(specPath: string, dirs: seq<string>, file: string)
    requires |dirs| >= 1 && PlainSegments(dirs + [file]) && UnquotedUndotted(dirs + [file])
    requires var j := Join(dirs + [file], [Sep]); specPath == j || specPath == [Sep] + j || specPath == "./../" + j
    ensures ClassName(specPath) == if |dirs| == 1 then dirs[0] else dirs[0] + "." + Join(dirs[1..], [Sep])
  {
    var segs := dirs + [file];
    assert segs[|dirs|] == file && forall i :: 0 <= i < |dirs| ==> segs[i] == dirs[i];
    JoinSnoc(dirs, file, [Sep]);
    ClassPathOfPlain(segs);
    ClassNameOfDirs(specPath, dirs, file);
  }

  /** A spec path that is a bare file name (no separator, no double quote, not starting with a dot) has classname `daspec`. */
  lemma {:induction false} ClassNameOfFileOnly(specPath: string)
    requires PlainSegments([specPath]) && UnquotedUndotted([specPath])
    ensures ClassName(specPath) == DefaultClassName
  {
    assert Join([specPath], [Sep]) == specPath;
    ClassPathOfPlain([specPath]);
    ClassNameChoice(specPath);
  }

  /** The class path of a spec path that normalizing and stripping leading dots leave alone, and that is not absolute once unquoted. */
  lemma {:induction false} ClassPathUnrooted(specPath: string)
    requires Normalize(specPath) == specPath && StripLeading(specPath, '.') == specPath
    requires !IsAbsolute(RemoveAll(specPath, '"'))
    ensures ClassPath(specPath) == RemoveAll(specPath, '"')
  {
  }

  /** `className` applied to what `ClassPath` leaves. */
  lemma {:induction false} ClassNameChoice(specPath: string)
    ensures Sep !in ClassPath(specPath) ==> ClassName(specPath) == DefaultClassName
    ensures Sep in ClassPath(specPath) ==> ClassName(specPath) == ReplaceFirst(Dirname(ClassPath(specPath)), Sep, '.')
  {
  }

  lemma {:induction false} DottedDirs(dirs: seq<string>, file: string)
    requires |dirs| >= 1 && PlainSegments(dirs) && file != [] && Sep !in file
    ensures var p := Join(dirs, [Sep]) + [Sep] + file;
      ReplaceFirst(Dirname(p), Sep, '.') == if |dirs| == 1 then dirs[0] else dirs[0] + "." + Join(dirs[1..], [Sep])
  {
    var d := Join(dirs, [Sep]);
    PlainJoin(dirs);
    DirnameOfFile(d, file);
    if |dirs| == 1 {
      assert d == dirs[0];
    } else {
      assert dirs == [dirs[0]] + dirs[1..];
      JoinCons(dirs[0], dirs[1..], [Sep]);
      IndexOfAfter(dirs[0], [Sep] + Join(dirs[1..], [Sep]), Sep);
      assert d == dirs[0] + ([Sep] + Join(dirs[1..], [Sep]));
      assert IndexOf(d, Sep) == |dirs[0]|;
    }
  }

  lemma {:induction false} DirnameKeepsOut(p: string, x: char)
    requires x !in p && x != '.' && x != Sep
    ensures x !in Dirname(p)
  {
    var d := Dirname(p);
    DirnameShape(p);
    if d != "." && d != "/" && d != "//" {
      assert forall k :: 0 <= k < |d| ==> d[k] == p[k];
    }
  }

  lemma {:induction false} ReplaceFirstKeepsOut(s: string, c: char, d: char, x: char)
    requires x !in s && x != d
    ensures x !in ReplaceFirst(s, c, d)
  {
    var r := ReplaceFirst(s, c, d);
    assert forall k :: 0 <= k < |r| ==> r[k] == d || r[k] == s[k];
  }

  /* ---------------------------------------------------------------- configuration */

  /** The `junit-xml-file-name` setting: absent, a string, or an array of strings (from a command line). */
  datatype FileNameSetting = Unset | Name(name: string) | Names(names: seq<string>)

  /**
   * The configuration the formatter reads. An unset `output-dir` is modelled as the empty
   * string: the source treats both as falsy.
   */
  datatype Config = Config(fileName: FileNameSetting, outputDir: string)

  /**
   * What construction can throw: the source's `output-dir not set` error, and the
   * TypeError raised when the file name is an empty array (its first element is undefined).
   */
  datatype ConfigError = OutputDirNotSet | FileNameUndefined

  /** The message of the error the source throws for `OutputDirNotSet`. */
  const OutputDirNotSetMessage: string := "output-dir not set"

  const DefaultFileName: string := "report.xml"

  /** The file name before it is placed under `output-dir`: a falsy name defaults, an array gives its first element. */
  function RequestedName(setting: FileNameSetting): (r: Result<string, ConfigError>)
    ensures setting.Unset? || setting == Name("") ==> r == Ok(DefaultFileName)
    ensures setting.Name? && setting.name != "" ==> r == Ok(setting.name)
    ensures setting.Names? && setting.names != [] ==> r == Ok(setting.names[0])
    ensures r.Err? <==> setting == Names([])
  {
    match setting
    case Unset => Ok(DefaultFileName)
    case Name(n) => if n == "" then Ok(DefaultFileName) else Ok(n)
    case Names(ns) => if ns == [] then Err(FileNameUndefined) else Ok(ns[0])
  }

  /**
   * The output path construction resolves: a name containing a separator is used as it
   * is, whatever `output-dir` says; any other name is joined under `output-dir`, which must
   * then be set.
   */
  function OutputPath(config: Config): (r: Result<string, ConfigError>)
    ensures RequestedName(config.fileName).Err? ==> r == Err(FileNameUndefined)
    ensures RequestedName(config.fileName).Ok? ==>
      var name := RequestedName(config.fileName).value;
      && (Sep in name ==> r == Ok(name))
      && (Sep !in name && config.outputDir == "" ==> r == Err(OutputDirNotSet))
      && (Sep !in name && config.outputDir != "" ==> r == Ok(JoinPaths(config.outputDir, name)))
  {
    match RequestedName(config.fileName)
    case Err(e) => Err(e)
    case Ok(name) =>
      if IndexOf(name, Sep) >= 0 then Ok(name)
      else if config.outputDir == "" then Err(OutputDirNotSet)
      else Ok(JoinPaths(config.outputDir, name))
  }

  /** `parseConfig`: resolves the file name step by step, as the source reassigns `fileName`. */
  method ParseConfig(config: Config) returns (r: Result<string, ConfigError>)
    ensures r == OutputPath(config)
  {
    var fileName := config.fileName;
    if fileName.Unset? || fileName == Name("") {
      fileName := Name(DefaultFileName);
    }
    var name: string;
    if fileName.Names? {
      if fileName.names == [] {
        return Err(FileNameUndefined);
      }
      name := fileName.names[0];
    } else {
      name := fileName.name;
    }
    if IndexOf(name, Sep) < 0 {
      if config.outputDir == "" {
        return Err(OutputDirNotSet);
      }
      name := JoinPaths(config.outputDir, name);
    }
    return Ok(name);
  }

  /* ---------------------------------------------------------------- report lines */

  const XmlDeclaration: string := "<?xml version=\"1.0\" encoding=\"UTF-8\"?>"
  const SuiteClose: string := "</testsuite>"
  const CaseClose: string := "</testcase>"
  const ErrorElement: string := "<error/>"
  const FailureElement: string := "<failure/>"
  const SkippedElement: string := "<skipped/>"

  /** One spec as the report records it. */
  datatype Testcase = Testcase(name: string, classname: string, status: Status)

  /** The literal pieces of the two opening lines, between the values they carry. */
  const CaseNameStart: string := "<testcase name=\""
  const ClassnameStart: string := "\" classname=\""
  const SuiteTestsStart: string := "<testsuite name=\"DaSpec\" tests=\""
  const FailuresStart: string := "\" failures=\""
  const ErrorsStart: string := "\" errors=\""
  const SkippedStart: string := "\" skipped=\""
  const OpenEnd: string := "\">"

  /**
   * The line that opens a spec's `<testcase>` element: it starts with the name attribute
   * holding `name`, ends the tag, and stays one line when neither attribute breaks lines.
   */
  function CaseOpen(name: string, classname: string): (r: string)
    ensures CaseNameStart + name <= r
    ensures |r| >= |OpenEnd| && r[|r| - |OpenEnd|..] == OpenEnd
    ensures '\n' !in name && '\n' !in classname ==> '\n' !in r
  {
    CaseNameStart + name + ClassnameStart + classname + OpenEnd
  }

  /** The empty element placed inside a `<testcase>` for a spec that did not pass. */
  function StatusElement(status: Status): string
    requires status != Passed
  {
    match status
    case Error => ErrorElement
    case Failed => FailureElement
    case Skipped => SkippedElement
  }

  /**
   * The lines `specEnded` appends for one spec: the opening line, then for an error, a
   * failure or a skip exactly one element naming it, then the closing line.
   */
  function CaseLines(tc: Testcase): (r: seq<string>)
    ensures |r| == if tc.status == Passed then 2 else 3
    ensures r[0] == CaseOpen(tc.name, tc.classname) && r[|r| - 1] == CaseClose
    ensures tc.status != Passed ==> r[1] == StatusElement(tc.status)
  {
    [CaseOpen(tc.name, tc.classname)]
    + (if tc.status == Passed then [] else [StatusElement(tc.status)])
    + [CaseClose]
  }

  /** The lines of several testcases, in order. */
  function CasesLines(tcs: seq<Testcase>): seq<string>
  {
    if tcs == [] then [] else CaseLines(tcs[0]) + CasesLines(tcs[1..])
  }

  /**
   * The `<testsuite>` opening line with its four counters: it starts with the tests
   * attribute holding the executed count, ends the tag, and is a single line.
   */
  function SuiteOpen(tests: nat, failures: nat, errors: nat, skipped: nat): (r: string)
    ensures SuiteTestsStart + DecimalString(tests) <= r
    ensures |r| >= |OpenEnd| && r[|r| - |OpenEnd|..] == OpenEnd
    ensures '\n' !in r
  {
    SuiteTextsOneLine();
    DecimalOneLine(tests);
    DecimalOneLine(failures);
    DecimalOneLine(errors);
    DecimalOneLine(skipped);
    EndsWith(SuiteTestsStart + DecimalString(tests)
      + FailuresStart + DecimalString(failures)
      + ErrorsStart + DecimalString(errors)
      + SkippedStart + DecimalString(skipped), OpenEnd);
    SuiteTestsStart + DecimalString(tests)
    + FailuresStart + DecimalString(failures)
    + ErrorsStart + DecimalString(errors)
    + SkippedStart + DecimalString(skipped) + OpenEnd
  }

  /** The fixed texts of the `<testsuite>` line hold no line feed. */
  lemma {:induction false} SuiteTextsOneLine()
    ensures '\n' !in SuiteTestsStart && '\n' !in FailuresStart && '\n' !in ErrorsStart
    ensures '\n' !in SkippedStart && '\n' !in OpenEnd
  {
  }

  /** `b` is the tail of `a + b`. */
  lemma {:induction false} EndsWith(a: string, b: string)
    ensures |a + b| >= |b| && (a + b)[|a + b| - |b|..] == b
  {
    assert (a + b)[|a|..] == b;
  }

  /** A counter rendered in decimal holds no line feed. */
  lemma {:induction false} DecimalOneLine(n: nat)
    ensures '\n' !in DecimalString(n)
  {
    var d := DecimalString(n);
    assert forall k :: 0 <= k < |d| ==> d[k] != '\n';
  }

  /** The file the formatter writes: the directory it makes sure exists, the path, and the text. */
  datatype FileWrite = FileWrite(directory: string, path: string, contents: string)

  /* ---------------------------------------------------------------- event history */

  /**
   * What the runner has delivered to the formatter: a finished spec, recorded as the
   * testcase `specEnded` derived from it, or the end of the suite.
   */
  datatype Event = SpecDone(tc: Testcase) | SuiteDone

  /**
   * The testcase `specEnded` derives from a spec's path and counts: its attributes hold no
   * double quote, its name no separator, and it gets a status element exactly when the
   * counts show an error, a failure, a skip or nothing executed.
   */
  function CaseOf(specPath: string, counts: SpecCounts): (r: Testcase)
    ensures '"' !in r.name && Sep !in r.name && '"' !in r.classname
    ensures r.status != Passed <==> counts.error != 0 || counts.failed > 0 || counts.skipped > 0 || counts.executed == 0
  {
    Testcase(TestName(specPath), ClassName(specPath), SpecStatus(counts))
  }

  /** The number of `specEnded` events in `h`. */
  function Executed(h: seq<Event>): nat
  {
    if h == [] then 0 else Executed(h[..|h| - 1]) + (if h[|h| - 1].SpecDone? then 1 else 0)
  }

  /** The number of `specEnded` events in `h` whose counts classify as `status`. */
  function Counted(h: seq<Event>, status: Status): nat
  {
    if h == [] then 0
    else
      var e := h[|h| - 1];
      Counted(h[..|h| - 1], status) + (if e.SpecDone? && e.tc.status == status then 1 else 0)
  }

  /** The `<testsuite>` line `suiteEnded` builds from the counters after `h`. */
  function SuiteOpenAfter(h: seq<Event>): string
  {
    SuiteOpen(Executed(h), Counted(h, Failed), Counted(h, Error), Counted(h, Skipped))
  }

  /**
   * The line buffer after the events `h`: each `specEnded` appends its testcase lines;
   * each `suiteEnded` puts the declaration and a `<testsuite>` line in front and appends
   * `</testsuite>` (so a second `suiteEnded` wraps the whole buffer again).
   */
  function Buffer(h: seq<Event>): (r: seq<string>)
    ensures |r| >= 2 * |h|
  {
    if h == [] then []
    else
      var before := h[..|h| - 1];
      match h[|h| - 1]
      case SpecDone(tc) => Buffer(before) + CaseLines(tc)
      case SuiteDone => [XmlDeclaration, SuiteOpenAfter(before)] + Buffer(before) + [SuiteClose]
  }

  /** What one `specEnded` event adds to the counters and to the buffer. */
  lemma {:induction false} AfterSpec(h: seq<Event>, tc: Testcase)
    ensures var h' := h + [SpecDone(tc)];
      && Executed(h') == Executed(h) + 1
      && Counted(h', Error) == Counted(h, Error) + (if tc.status == Error then 1 else 0)
      && Counted(h', Failed) == Counted(h, Failed) + (if tc.status == Failed then 1 else 0)
      && Counted(h', Skipped) == Counted(h, Skipped) + (if tc.status == Skipped then 1 else 0)
      && Buffer(h') == Buffer(h) + CaseLines(tc)
  {
    assert (h + [SpecDone(tc)])[..|h|] == h;
  }

  /** What one `suiteEnded` event leaves of the counters and does to the buffer. */
  lemma {:induction false} AfterSuite(h: seq<Event>)
    ensures var h' := h + [SuiteDone];
      && Executed(h') == Executed(h)
      && Counted(h', Error) == Counted(h, Error)
      && Counted(h', Failed) == Counted(h, Failed)
      && Counted(h', Skipped) == Counted(h, Skipped)
      && Buffer(h') == [XmlDeclaration, SuiteOpenAfter(h)] + Buffer(h) + [SuiteClose]
  {
    assert (h + [SuiteDone])[..|h|] == h;
  }

  /** Every spec is classified exactly once: the four status counts add up to the executed count. */
  lemma {:induction false} CountsPartitionExecuted(h: seq<Event>)
    ensures Counted(h, Error) + Counted(h, Failed) + Counted(h, Skipped) + Counted(h, Passed) == Executed(h)
  {
    if h != [] {
      CountsPartitionExecuted(h[..|h| - 1]);
    }
  }

  /** `h` holds only `specEnded` events. */
  predicate OnlySpecs(h: seq<Event>)
  {
    forall i :: 0 <= i < |h| ==> h[i].SpecDone?
  }

  /** The testcases of a run of `specEnded` events, in the order received. */
  function CasesOf(h: seq<Event>): (r: seq<Testcase>)
    requires OnlySpecs(h)
    ensures |r| == |h|
  {
    if h == [] then [] else CasesOf(h[..|h| - 1]) + [h[|h| - 1].tc]
  }

  lemma {:induction false} CasesLinesAppend(tcs: seq<Testcase>, tc: Testcase)
    ensures CasesLines(tcs + [tc]) == CasesLines(tcs) + CaseLines(tc)
  {
    if tcs != [] {
      assert (tcs + [tc])[1..] == tcs[1..] + [tc];
      CasesLinesAppend(tcs[1..], tc);
    }
  }

  /**
   * Before any `suiteEnded`, the buffer is the testcase lines of the specs in the order
   * received, and `tests` would be their number.
   */
  lemma {:induction false} BufferOfSpecs(h: seq<Event>)
    requires OnlySpecs(h)
    ensures Buffer(h) == CasesLines(CasesOf(h))
    ensures Executed(h) == |h|
  {
    if h != [] {
      var before := h[..|h| - 1];
      BufferOfSpecs(before);
      CasesLinesAppend(CasesOf(before), h[|h| - 1].tc);
    }
  }

  /**
   * After N `specEnded` events and one `suiteEnded`, the document is the declaration, the
   * `<testsuite>` line with `tests` equal to N and the counters of those specs, every
   * testcase in the order received, and `</testsuite>`.
   */
  lemma {:induction false} SingleSuiteDocument(h: seq<Event>)
    requires OnlySpecs(h)
    ensures Buffer(h + [SuiteDone]) ==
      [XmlDeclaration, SuiteOpen(|h|, Counted(h, Failed), Counted(h, Error), Counted(h, Skipped))]
      + CasesLines(CasesOf(h)) + [SuiteClose]
  {
    assert (h + [SuiteDone])[..|h|] == h;
    BufferOfSpecs(h);
  }

  /** The counters and the buffer are those the events `h` produce. */
  ghost predicate Tracks(h: seq<Event>, executed: nat, failed: nat, error: nat, skipped: nat, lines: seq<string>)
  {
    && executed == Executed(h)
    && failed == Counted(h, Failed)
    && error == Counted(h, Error)
    && skipped == Counted(h, Skipped)
    && lines == Buffer(h)
  }

  /**
   * One `specEnded` event keeps the counters and the buffer in step with the history, and
   * the error, failure and skip counters never add up to more than the executed count.
   */
  lemma {:induction false} TracksSpec(h: seq<Event>, tc: Testcase, executed: nat, failed: nat, error: nat, skipped: nat, lines: seq<string>)
    requires Tracks(h, executed, failed, error, skipped, lines)
    ensures var s := tc.status;
      var failed', error', skipped' :=
        failed + (if s == Failed then 1 else 0), error + (if s == Error then 1 else 0), skipped + (if s == Skipped then 1 else 0);
      && Tracks(h + [SpecDone(tc)], executed + 1, failed', error', skipped', lines + CaseLines(tc))
      && error' + failed' + skipped' <= executed + 1
  {
    AfterSpec(h, tc);
    CountsPartitionExecuted(h + [SpecDone(tc)]);
  }

  /** One `suiteEnded` event keeps the counters in step and wraps the buffer. */
  lemma {:induction false} TracksSuite(h: seq<Event>, executed: nat, failed: nat, error: nat, skipped: nat, lines: seq<string>)
    requires Tracks(h, executed, failed, error, skipped, lines)
    ensures Tracks(h + [SuiteDone], executed, failed, error, skipped,
      [XmlDeclaration, SuiteOpen(executed, failed, error, skipped)] + lines + [SuiteClose])
  {
    AfterSuite(h);
  }

  /* ---------------------------------------------------------------- the formatter */

  /**
   * A formatter attached to a runner: four counters, the line buffer and the resolved
   * output path. `events` is the history of what the runner delivered; `Valid` ties every
   * field to it.
   */
  class Formatter {
    const fileName: string
    var executedSpecs: nat
    var failedSpecs: nat
    var errorSpecs: nat
    var skippedSpecs: nat
    var lines: seq<string>
    ghost var events: seq<Event>

    ghost predicate Valid()
      reads this
    {
      Tracks(events, executedSpecs, failedSpecs, errorSpecs, skippedSpecs, lines)
    }

    /** A formatter that writes to `fileName` and has seen no event yet. */
    constructor (fileName: string)
      ensures Valid() && events == []
      ensures this.fileName == fileName
      ensures executedSpecs == 0 && failedSpecs == 0 && errorSpecs == 0 && skippedSpecs == 0 && lines == []
    {
      this.fileName := fileName;
      executedSpecs, failedSpecs, errorSpecs, skippedSpecs := 0, 0, 0, 0;
      lines := [];
      events := [];
    }

    /**
     * `junitXmlFormatter(runner, config)`: resolves the output path first and fails, before
     * any event, when it cannot.
     */
    static method Start(config: Config) returns (r: Result<Formatter, ConfigError>)
      ensures r.Err? <==> OutputPath(config).Err?
      ensures r.Err? ==> r.error == OutputPath(config).error
      ensures r.Ok? ==>
        && fresh(r.value) && r.value.Valid() && r.value.events == []
        && r.value.fileName == OutputPath(config).value
    {
      var resolved := ParseConfig(config);
      match resolved
      case Err(e) => r := Err(e);
      case Ok(name) =>
        var f := new Formatter(name);
        r := Ok(f);
    }

    /**
     * The `specEnded` handler: one more executed spec, one more in at most one of the error,
     * failure and skip counters, and the spec's testcase lines appended to the buffer.
     */
    method SpecEnded(specPath: string, counts: SpecCounts)
      requires Valid()
      modifies this
      ensures Valid() && events == old(events) + [SpecDone(CaseOf(specPath, counts))]
      ensures executedSpecs == old(executedSpecs) + 1
      ensures var s := SpecStatus(counts);
        && errorSpecs == old(errorSpecs) + (if s == Error then 1 else 0)
        && failedSpecs == old(failedSpecs) + (if s == Failed then 1 else 0)
        && skippedSpecs == old(skippedSpecs) + (if s == Skipped then 1 else 0)
      ensures errorSpecs + failedSpecs + skippedSpecs <= executedSpecs
      ensures lines == old(lines) + CaseLines(CaseOf(specPath, counts))
    {
      var tc := CaseOf(specPath, counts);
      RecordCase(tc);
    }

    /**
     * The state changes of the `specEnded` handler once it has derived the spec's testcase:
     * the executed counter, then the pushes.
     */
    method RecordCase(tc: Testcase)
      requires Valid()
      modifies this
      ensures Valid() && events == old(events) + [SpecDone(tc)]
      ensures executedSpecs == old(executedSpecs) + 1
      ensures && errorSpecs == old(errorSpecs) + (if tc.status == Error then 1 else 0)
        && failedSpecs == old(failedSpecs) + (if tc.status == Failed then 1 else 0)
        && skippedSpecs == old(skippedSpecs) + (if tc.status == Skipped then 1 else 0)
      ensures errorSpecs + failedSpecs + skippedSpecs <= executedSpecs
      ensures lines == old(lines) + CaseLines(tc)
    {
      TracksSpec(events, tc, executedSpecs, failedSpecs, errorSpecs, skippedSpecs, lines);
      executedSpecs := executedSpecs + 1;
      PushCase(tc.name, tc.classname, tc.status);
      events := events + [SpecDone(tc)];
    }

    /**
     * The pushes of the `specEnded` handler: the opening line; for an error, a failure or
     * a skip one more in its own counter and its element; the closing line. A pass counts
     * nowhere and adds no element.
     */
    method PushCase(name: string, classname: string, summary: Status)
      modifies this`errorSpecs, this`failedSpecs, this`skippedSpecs, this`lines
      ensures errorSpecs == old(errorSpecs) + (if summary == Error then 1 else 0)
      ensures failedSpecs == old(failedSpecs) + (if summary == Failed then 1 else 0)
      ensures skippedSpecs == old(skippedSpecs) + (if summary == Skipped then 1 else 0)
      ensures lines == old(lines) + CaseLines(Testcase(name, classname, summary))
    {
      lines := lines + [CaseOpen(name, classname)];
      if summary == Error {
        errorSpecs := errorSpecs + 1;
        lines := lines + [ErrorElement];
      } else if summary == Failed {
        failedSpecs := failedSpecs + 1;
        lines := lines + [FailureElement];
      } else if summary == Skipped {
        skippedSpecs := skippedSpecs + 1;
        lines := lines + [SkippedElement];
      }
      lines := lines + [CaseClose];
    }

    /**
     * The `suiteEnded` handler: whatever counts the runner passes are ignored; the
     * `<testsuite>` line built from the current counters goes in front of the buffer,
     * `</testsuite>` after it, and the file is saved.
     */
    method SuiteEnded() returns (w: FileWrite)
      requires Valid()
      modifies this
      ensures Valid() && events == old(events) + [SuiteDone]
      ensures executedSpecs == old(executedSpecs) && failedSpecs == old(failedSpecs)
      ensures errorSpecs == old(errorSpecs) && skippedSpecs == old(skippedSpecs)
      ensures lines == [XmlDeclaration, SuiteOpen(executedSpecs, failedSpecs, errorSpecs, skippedSpecs)]
        + old(lines) + [SuiteClose]
      ensures w == FileWrite(Dirname(fileName), fileName, Join(lines, "\n"))
    {
      ghost var wrapped := [XmlDeclaration, SuiteOpen(executedSpecs, failedSpecs, errorSpecs, skippedSpecs)] + lines + [SuiteClose];
      TracksSuite(events, executedSpecs, failedSpecs, errorSpecs, skippedSpecs, lines);
      lines := [SuiteOpen(executedSpecs, failedSpecs, errorSpecs, skippedSpecs)] + lines;
      lines := lines + [SuiteClose];
      w := SaveSuiteFile();
      assert lines == wrapped;
      events := events + [SuiteDone];
    }

    /** `saveSuiteFile`: puts the XML declaration in front of the buffer and writes the buffer, one line per entry. */
    method SaveSuiteFile() returns (w: FileWrite)
      modifies this`lines
      ensures lines == [XmlDeclaration] + old(lines)
      ensures w == FileWrite(Dirname(fileName), fileName, Join(lines, "\n"))
    {
      lines := [XmlDeclaration] + lines;
      w := FileWrite(Dirname(fileName), fileName, Join(lines, "\n"));
    }
  }
}
