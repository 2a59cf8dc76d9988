/**
 * The literal cases the formatter's behaviour is pinned to: the names and classnames of
 * particular spec paths, the status of particular counts, the output paths of particular
 * configurations, and the counters after a particular run. Each case takes its literal
 * input as a parameter fixed by `requires`, so that the verifier reasons about it through
 * the general lemmas instead of evaluating the path functions character by character.
 */
module JunitXmlExamples {
  import opened Outcomes
  import opened JsString
  import opened PosixPath
  import opened JunitXmlFormatter

  /* ---------------------------------------------------------------- classnames */

  lemma {:induction false} FolderSubfolderPlain(dirs: seq<string>, file: string)
    requires dirs == ["folder", "subfolder"] && file == "specname.md"
    ensures PlainSegments(dirs + [file])
  {
    assert dirs + [file] == ["folder", "subfolder", "specname.md"];
  }
  lemma {:induction false} FolderSubfolderUnquoted(dirs: seq<string>, file: string)
    requires dirs == ["folder", "subfolder"] && file == "specname.md"
    ensures UnquotedUndotted(dirs + [file])
  {
    assert dirs + [file] == ["folder", "subfolder", "specname.md"];
  }
  lemma {:induction false} FolderSubfolderJoined(dirs: seq<string>, file: string)
    requires dirs == ["folder", "subfolder"] && file == "specname.md"
    ensures Join(dirs + [file], [Sep]) == "folder/subfolder/specname.md"
  {
    var rest := ["subfolder", "specname.md"];
    assert dirs + [file] == ["folder"] + rest;
    SubfolderJoined(rest);
    JoinCons("folder", rest, "/");
  }
  lemma {:induction false} SubfolderJoined(rest: seq<string>)
    requires rest == ["subfolder", "specname.md"]
    ensures Join(rest, [Sep]) == "subfolder/specname.md"
  {
    JoinCons("subfolder", ["specname.md"], "/");
  }
  lemma {:induction false} FolderSubfolderDotted(dirs: seq<string>, file: string)
    requires dirs == ["folder", "subfolder"] && file == "specname.md"
    ensures dirs[0] + "." + Join(dirs[1..], [Sep]) == "folder.subfolder"
  {
    assert dirs[1..] == ["subfolder"];
  }

  /**
   * `folder/subfolder/specname.md`, `/folder/subfolder/specname.md` and
   * `./../folder/subfolder/specname.md` all have classname `folder.subfolder`.
   */
  lemma {:induction false} ClassNameExamples(specPath: string)
    requires specPath == "folder/subfolder/specname.md"
      || specPath == "/folder/subfolder/specname.md"
      || specPath == "./../folder/subfolder/specname.md"
    ensures ClassName(specPath) == "folder.subfolder"
  {
    var dirs, file := ["folder", "subfolder"], "specname.md";
    FolderSubfolderPlain(dirs, file);
    FolderSubfolderUnquoted(dirs, file);
    FolderSubfolderJoined(dirs, file);
    FolderSubfolderDotted(dirs, file);
    ClassNameOfPath(specPath, dirs, file);
  }

  /** `specname.md` has no directory: classname `daspec`. */
  lemma {:induction false} ClassNameDefaultExample(specPath: string)
    requires specPath == "specname.md"
    ensures ClassName(specPath) == "daspec"
  {
    ClassNameOfFileOnly(specPath);
  }

  lemma {:induction false} OneTwoThreePlain(dirs: seq<string>, file: string)
    requires dirs == ["one", "two", "three"] && file == "page.md"
    ensures PlainSegments(dirs + [file])
  {
    assert dirs + [file] == ["one", "two", "three", "page.md"];
  }

  lemma {:induction false} OneTwoThreeUnquoted(dirs: seq<string>, file: string)
    requires dirs == ["one", "two", "three"] && file == "page.md"
    ensures UnquotedUndotted(dirs + [file])
  {
    assert dirs + [file] == ["one", "two", "three", "page.md"];
  }

  lemma {:induction false} OneTwoThreeJoined(dirs: seq<string>, file: string)
    requires dirs == ["one", "two", "three"] && file == "page.md"
    ensures Join(dirs + [file], [Sep]) == "one/two/three/page.md"
  {
    assert dirs + [file] == ["one"] + (["two"] + (["three"] + ["page.md"]));
    JoinCons("three", ["page.md"], "/");
    JoinCons("two", ["three"] + ["page.md"], "/");
    JoinCons("one", ["two"] + (["three"] + ["page.md"]), "/");
  }

  lemma {:induction false} OneTwoThreeDotted(dirs: seq<string>)
    requires dirs == ["one", "two", "three"]
    ensures dirs[0] + "." + Join(dirs[1..], [Sep]) == "one.two/three"
  {
    assert dirs[1..] == ["two"] + ["three"];
    JoinCons("two", ["three"], "/");
  }

  /**
   * Only the first separator of the directory part becomes a dot:
   * `one/two/three/page.md` has classname `one.two/three`.
   */
  lemma {:induction false} ClassNameFirstSeparatorExample(specPath: string)
    requires specPath == "one/two/three/page.md"
    ensures ClassName(specPath) == "one.two/three"
  {
    var dirs, file := ["one", "two", "three"], "page.md";
    OneTwoThreePlain(dirs, file);
    OneTwoThreeUnquoted(dirs, file);
    OneTwoThreeJoined(dirs, file);
    OneTwoThreeDotted(dirs);
    ClassNameOfPath(specPath, dirs, file);
  }

  /* ---------------------------------------------------------------- test names */

  /** `folder/subfolder/specname.md` and `specname.md` both have test name `specname`. */
  lemma {:induction false} TestNameExamples(specPath: string)
    requires specPath == "folder/subfolder/specname.md" || specPath == "specname.md"
    ensures TestName(specPath) == "specname"
  {
    var dir, stem, ext := "folder/subfolder", "specname", "md";
    assert stem + "." + ext == "specname.md";
    assert dir + [Sep] + (stem + "." + ext) == "folder/subfolder/specname.md";
    TestNameOfExtension(specPath, dir, stem, ext);
  }

  /** The dotfile `folder/.md` has test name `.md`. */
  lemma {:induction false} DotfileTestNameExample(specPath: string, dir: string, ext: string)
    requires specPath == "folder/.md" && dir == "folder" && ext == "md"
    ensures TestName(specPath) == ".md"
  {
    assert specPath == dir + [Sep] + ("." + ext);
    TestNameOfDotfile(specPath, dir, ext);
  }

  /** The dotfile `folder/.md` has classname `folder`. */
  lemma {:induction false} DotfileClassNameExample(specPath: string, dirs: seq<string>, file: string)
    requires specPath == "folder/.md" && dirs == ["folder"] && file == ".md"
    ensures ClassName(specPath) == "folder"
  {
    DotfileSegments(dirs, file);
    ClassNameOfPath(specPath, dirs, file);
  }

  lemma {:induction false} DotfileSegments(dirs: seq<string>, file: string)
    requires dirs == ["folder"] && file == ".md"
    ensures PlainSegments(dirs + [file]) && UnquotedUndotted(dirs + [file])
    ensures Join(dirs + [file], [Sep]) == "folder/.md"
  {
    assert dirs + [file] == ["folder", ".md"];
    JoinCons("folder", [".md"], "/");
  }

  /* ---------------------------------------------------------------- double quotes */

  /** Removing the quote character between two pieces joins the pieces, unquoted. */
  lemma {:induction false} RemoveQuoteBetween(a: string, b: string)
    ensures RemoveAll(a + "\"" + b, '"') == RemoveAll(a, '"') + RemoveAll(b, '"')
  {
    var q := "\"";
    assert a + q + b == a + (q + b);
    RemoveAllConcat(a, q + b, '"');
    RemoveAllConcat(q, b, '"');
    assert RemoveAll(q, '"') == [];
    assert [] + RemoveAll(b, '"') == RemoveAll(b, '"');
  }

  /** Removing quotes keeps a separator between two pieces. */
  lemma {:induction false} RemoveQuotesAroundSep(a: string, b: string)
    ensures RemoveAll(a + "/" + b, '"') == RemoveAll(a, '"') + "/" + RemoveAll(b, '"')
  {
    RemoveAllConcat(a + "/", b, '"');
    RemoveAllConcat(a, "/", '"');
  }

  /* The three segments of the quoted example path, each with its quotes removed. */

  lemma {:induction false} QuotedFirst(s0: string)
    requires s0 == "fo" + "\"" + "lder"
    ensures RemoveAll(s0, '"') == "folder"
  {
    RemoveQuoteBetween("fo", "lder");
  }

  lemma {:induction false} QuotedSecond(s1: string)
    requires s1 == "subfold" + "\"" + "er"
    ensures RemoveAll(s1, '"') == "subfolder"
  {
    RemoveQuoteBetween("subfold", "er");
  }

  lemma {:induction false} QuotedThird(s2: string, tail: string)
    requires tail == "ecn" + "\"" + "ame" && s2 == "sp" + "\"" + tail
    ensures RemoveAll(s2, '"') == "specname"
  {
    QuotedTail(tail);
    RemoveQuoteBetween("sp", tail);
  }

  lemma {:induction false} QuotedTail(tail: string)
    requires tail == "ecn" + "\"" + "ame"
    ensures RemoveAll(tail, '"') == "ecname"
  {
    RemoveQuoteBetween("ecn", "ame");
  }

  lemma {:induction false} QuotedUnquoted(specPath: string, s0: string, s1: string, s2: string)
    requires RemoveAll(s0, '"') == "folder" && RemoveAll(s1, '"') == "subfolder" && RemoveAll(s2, '"') == "specname"
    requires specPath == s0 + "/" + s1 + "/" + s2
    ensures RemoveAll(specPath, '"') == "folder/subfolder/specname"
  {
    RemoveQuotesAroundSep(s0 + "/" + s1, s2);
    RemoveQuotesAroundSep(s0, s1);
  }

  lemma {:induction false} QuotedSegments(segs: seq<string>, s0: string, s1: string, s2: string)
    requires s0 == "fo" + "\"" + "lder" && s1 == "subfold" + "\"" + "er" && s2 == "sp" + "\"" + ("ecn" + "\"" + "ame")
    requires segs == [s0, s1, s2]
    ensures |segs| >= 1 && PlainSegments(segs)
    ensures Join(segs, [Sep]) == s0 + "/" + s1 + "/" + s2
  {
    assert segs == [s0] + [s1, s2];
    JoinCons(s1, [s2], [Sep]);
    JoinCons(s0, [s1, s2], [Sep]);
  }

  lemma {:induction false} QuotedClassPath(specPath: string, s0: string, s1: string, s2: string)
    requires s0 == "fo" + "\"" + "lder" && s1 == "subfold" + "\"" + "er" && s2 == "sp" + "\"" + ("ecn" + "\"" + "ame")
    requires specPath == s0 + "/" + s1 + "/" + s2
    requires RemoveAll(specPath, '"') == "folder/subfolder/specname"
    ensures ClassPath(specPath) == "folder/subfolder/specname"
  {
    QuotedSegments([s0, s1, s2], s0, s1, s2);
    NormalizePlain([s0, s1, s2]);
    assert specPath[0] == 'f';
    assert StripLeading(specPath, '.') == specPath;
    ClassPathUnrooted(specPath);
  }

  lemma {:induction false} FolderSubfolderFile(dirs: seq<string>, file: string)
    requires dirs == ["folder", "subfolder"] && file == "specname"
    ensures |dirs| == 2 && PlainSegments(dirs) && file != [] && Sep !in file
    ensures Join(dirs, [Sep]) + [Sep] + file == "folder/subfolder/specname"
    ensures "folder/subfolder" + [Sep] + file == "folder/subfolder/specname"
  {
    JoinCons("folder", ["subfolder"], "/");
  }

  /**
   * Every double quote is removed before anything else: `fo"lder/subfold"er/sp"ecn"ame`
   * (written here as its three segments) has test name `specname` and classname
   * `folder.subfolder`.
   */
  lemma {:induction false} QuotedExample(specPath: string, s0: string, s1: string, s2: string)
    requires s0 == "fo" + "\"" + "lder" && s1 == "subfold" + "\"" + "er" && s2 == "sp" + "\"" + ("ecn" + "\"" + "ame")
    requires specPath == s0 + "/" + s1 + "/" + s2
    ensures TestName(specPath) == "specname"
    ensures ClassName(specPath) == "folder.subfolder"
  {
    QuotedFirst(s0);
    QuotedSecond(s1);
    QuotedThird(s2, "ecn" + "\"" + "ame");
    QuotedUnquoted(specPath, s0, s1, s2);
    QuotedClassPath(specPath, s0, s1, s2);
    var dirs, file := ["folder", "subfolder"], "specname";
    FolderSubfolderFile(dirs, file);
    FolderSubfolderDotted(dirs, "specname.md");
    ClassNameOfDirs(specPath, dirs, file);
    QuotedTestName(specPath, RemoveAll(specPath, '"'), "folder/subfolder", file);
  }

  lemma {:induction false} QuotedTestName(specPath: string, u: string, d: string, file: string)
    requires u == RemoveAll(specPath, '"') && d == "folder/subfolder" && file == "specname"
    requires u == d + [Sep] + file
    ensures TestName(specPath) == "specname"
  {
    LastComponentOfFile(d, file);
    DotlessName(file);
    StemOfPlainName(u);
  }

  lemma {:induction false} DotlessName(file: string)
    requires file == "specname"
    ensures file != ".." && forall k :: 0 < k < |file| ==> file[k] != '.'
  {
  }

  /**
   * `daspec` does not mean that no separator was left: a spec in a directory named
   * `daspec` gets the same classname as a spec with no directory.
   */
  lemma {:induction false} ClassNameDaspecDirectoryExample(specPath: string, dirs: seq<string>, file: string)
    requires specPath == "daspec/x.md" && dirs == ["daspec"] && file == "x.md"
    ensures Sep in ClassPath(specPath) && ClassName(specPath) == DefaultClassName
  {
    DaspecDirectorySegments(specPath, dirs, file);
    ClassPathOfPlain(dirs + [file]);
    ClassNameOfPath(specPath, dirs, file);
  }

  lemma {:induction false} DaspecDirectorySegments(specPath: string, dirs: seq<string>, file: string)
    requires specPath == "daspec/x.md" && dirs == ["daspec"] && file == "x.md"
    ensures PlainSegments(dirs + [file]) && UnquotedUndotted(dirs + [file])
    ensures Join(dirs + [file], [Sep]) == specPath && Sep in specPath
  {
    assert specPath[6] == Sep;
    assert dirs + [file] == ["daspec", "x.md"];
    JoinCons("daspec", ["x.md"], "/");
  }

  /* ---------------------------------------------------------------- statuses */

  /**
   * `{error: 1, failed: 1}` is an error, `{failed: 1, skipped: 1}` a failure,
   * `{executed: 0}` a skip and `{passed: n, executed: n}` a pass.
   */
  lemma {:induction false} StatusExamples(n: int)
    requires n > 0
    ensures SpecStatus(SpecCounts(0, 0, 1, 1, 0)) == Error
    ensures SpecStatus(SpecCounts(0, 0, 1, 0, 1)) == Failed
    ensures SpecStatus(SpecCounts(0, 0, 0, 0, 0)) == Skipped
    ensures SpecStatus(SpecCounts(n, n, 0, 0, 0)) == Passed
  {
  }

  /* ---------------------------------------------------------------- configuration */

  /** Without `output-dir`, a missing name and a bare `test.xml` both fail. */
  lemma {:induction false} ConfigWithoutDirExample(name: string)
    requires name == "test.xml"
    ensures OutputPath(Config(Unset, "")) == Err(OutputDirNotSet)
    ensures OutputPath(Config(Name(name), "")) == Err(OutputDirNotSet)
  {
    BareName(name);
    BareName(DefaultFileName);
  }

  /** A name with a directory is used as it is, with or without `output-dir`. */
  lemma {:induction false} ConfigFullNameExample(name: string, outputDir: string)
    requires name == "alt/full.xml" && outputDir == "out"
    ensures OutputPath(Config(Name(name), "")) == Ok(name)
    ensures OutputPath(Config(Name(name), outputDir)) == Ok(name)
  {
    assert name[3] == Sep;
  }

  /** Under `output-dir`, a missing name becomes `report.xml`. */
  lemma {:induction false} ConfigDefaultExample(outputDir: string, name: string)
    requires outputDir == "out" && name == DefaultFileName
    ensures OutputPath(Config(Unset, outputDir)) == Ok("out/report.xml")
  {
    BareName(name);
    JoinUnderOut(outputDir, name);
    assert outputDir + [Sep] + name == "out/report.xml";
  }

  /** Under `output-dir`, a one-element array of names gives its element. */
  lemma {:induction false} ConfigArrayExample(outputDir: string, name: string)
    requires outputDir == "out" && name == "test.xml"
    ensures OutputPath(Config(Names([name]), outputDir)) == Ok("out/test.xml")
  {
    BareName(name);
    JoinUnderOut(outputDir, name);
    assert outputDir + [Sep] + name == "out/test.xml";
  }

  lemma {:induction false} BareName(name: string)
    requires name == "test.xml" || name == "report.xml"
    ensures Sep !in name
  {
  }

  lemma {:induction false} JoinUnderOut(outputDir: string, name: string)
    requires outputDir == "out" && (name == "report.xml" || name == "test.xml")
    ensures JoinPaths(outputDir, name) == outputDir + [Sep] + name
  {
    assert ["out"] + [name] == ["out", name];
    assert Join(["out"], [Sep]) == outputDir;
    JoinPathsPlain(["out"], name);
  }

  /* ---------------------------------------------------------------- a run */

  /**
   * Three specs with counts `{passed: 4, executed: 4}`, `{passed: 3, executed: 6, failed: 2}`
   * and `{passed: 3, executed: 6, failed: 2, error: 1}`, then the end of the suite: the
   * report says `tests="3" failures="1" errors="1" skipped="0"` and holds the three
   * testcases in order, as a pass, a failure and an error. A formatter that receives these
   * events holds this buffer, since `Valid` ties its buffer to `Buffer` of its history.
   */
  lemma {:induction false} ThreeSpecRun(p1: string, p2: string, p3: string, h: seq<Event>)
    requires h == [SpecDone(CaseOf(p1, SpecCounts(4, 4, 0, 0, 0))),
                   SpecDone(CaseOf(p2, SpecCounts(3, 6, 2, 0, 0))),
                   SpecDone(CaseOf(p3, SpecCounts(3, 6, 2, 1, 0)))]
    ensures Executed(h) == 3 && Counted(h, Failed) == 1 && Counted(h, Error) == 1 && Counted(h, Skipped) == 0
    ensures Buffer(h + [SuiteDone]) == [XmlDeclaration, SuiteOpen(3, 1, 1, 0)]
      + CaseLines(Testcase(TestName(p1), ClassName(p1), Passed))
      + CaseLines(Testcase(TestName(p2), ClassName(p2), Failed))
      + CaseLines(Testcase(TestName(p3), ClassName(p3), Error))
      + [SuiteClose]
  {
    var k1, k2, k3 := SpecCounts(4, 4, 0, 0, 0), SpecCounts(3, 6, 2, 0, 0), SpecCounts(3, 6, 2, 1, 0);
    assert SpecStatus(k1) == Passed && SpecStatus(k2) == Failed && SpecStatus(k3) == Error;
    RunDocument(CaseOf(p1, k1), CaseOf(p2, k2), CaseOf(p3, k3), h);
  }

  /** A pass, a failure and an error, then the end of the suite. */
  lemma {:induction false} RunDocument(t1: Testcase, t2: Testcase, t3: Testcase, h: seq<Event>)
    requires t1.status == Passed && t2.status == Failed && t3.status == Error
    requires h == [SpecDone(t1), SpecDone(t2), SpecDone(t3)]
    ensures Executed(h) == 3 && Counted(h, Failed) == 1 && Counted(h, Error) == 1 && Counted(h, Skipped) == 0
    ensures Buffer(h + [SuiteDone]) ==
      [XmlDeclaration, SuiteOpen(3, 1, 1, 0)] + CaseLines(t1) + CaseLines(t2) + CaseLines(t3) + [SuiteClose]
  {
    RunCases(t1, t2, t3, h);
    AfterSuite(h);
    assert SuiteOpenAfter(h) == SuiteOpen(3, 1, 1, 0);
    RegroupLines([XmlDeclaration, SuiteOpen(3, 1, 1, 0)], CaseLines(t1), CaseLines(t2), CaseLines(t3), [SuiteClose]);
  }

  /** The counters and the buffer after a pass, a failure and an error. */
  lemma {:induction false} RunCases(t1: Testcase, t2: Testcase, t3: Testcase, h: seq<Event>)
    requires t1.status == Passed && t2.status == Failed && t3.status == Error
    requires h == [SpecDone(t1), SpecDone(t2), SpecDone(t3)]
    ensures Executed(h) == 3 && Counted(h, Failed) == 1 && Counted(h, Error) == 1 && Counted(h, Skipped) == 0
    ensures Buffer(h) == CaseLines(t1) + CaseLines(t2) + CaseLines(t3)
  {
    var h1 := [SpecDone(t1)];
    var h2 := h1 + [SpecDone(t2)];
    assert [] + [SpecDone(t1)] == h1;
    assert h2 + [SpecDone(t3)] == h;
    assert [] + CaseLines(t1) == CaseLines(t1);
    TracksSpec([], t1, 0, 0, 0, 0, []);
    TracksSpec(h1, t2, 1, 0, 0, 0, CaseLines(t1));
    TracksSpec(h2, t3, 2, 1, 0, 0, CaseLines(t1) + CaseLines(t2));
  }

  lemma {:induction false} RegroupLines(a: seq<string>, b: seq<string>, c: seq<string>, d: seq<string>, e: seq<string>)
    ensures a + (b + c + d) + e == a + b + c + d + e
  {
  }
}
