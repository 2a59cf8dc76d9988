/**
 * Reading a report back: a parser for exactly the lines the formatter writes, and the
 * proof that the document `suiteEnded` saves after a run of specs reads back as the
 * counters and the testcases that went into it, with the counters agreeing with the
 * testcases.
 */
module JunitXmlReading {
  import opened Outcomes
  import opened JsString
  import opened JunitXmlFormatter

  /* ---------------------------------------------------------------- fields */

  /** `s` without its prefix `pre`, when it has it. */
  function ChopPrefix(pre: string, s: string): (r: Option<string>)
    ensures r.Some? <==> pre <= s
    ensures r.Some? ==> s == pre + r.value
  {
    if pre <= s then Some(s[|pre|..]) else None
  }

  /**
   * After the literal `pre`, the value up to the next double quote and the rest of the line
   * from that quote on.
   */
  function ReadField(s: string, pre: string): (r: Option<(string, string)>)
    ensures r.Some? ==> '"' !in r.value.0 && s == pre + r.value.0 + r.value.1
  {
    match ChopPrefix(pre, s)
    case None => None
    case Some(rest) =>
      var i := IndexOf(rest, '"');
      if i < 0 then None
      else
        assert rest == rest[..i] + rest[i..];
        Some((rest[..i], rest[i..]))
  }

  /** A value without double quotes, followed by a quote, is read back whole. */
  lemma {:induction false} ReadFieldBack(pre: string, v: string, rest: string)
    requires '"' !in v && |rest| > 0 && rest[0] == '"'
    ensures ReadField(pre + v + rest, pre) == Some((v, rest))
  {
    var s := pre + v + rest;
    assert s == pre + (v + rest);
    assert s[|pre|..] == v + rest;
    IndexOfAfter(v, rest, '"');
    assert (v + rest)[..|v|] == v;
    assert (v + rest)[|v|..] == rest;
  }

  /* ---------------------------------------------------------------- testcases */

  /** The name and classname of a `<testcase>` opening line. */
  function ReadCaseOpen(line: string): Option<(string, string)>
  {
    match ReadField(line, CaseNameStart)
    case None => None
    case Some((name, rest)) =>
      match ReadField(rest, ClassnameStart)
      case None => None
      case Some((classname, tail)) => if tail == OpenEnd then Some((name, classname)) else None
  }

  /** A testcase whose name and classname can stand between double quotes. */
  predicate Quotable(tc: Testcase)
  {
    '"' !in tc.name && '"' !in tc.classname
  }

  /** An opening line with quote-free values reads back as those values. */
  lemma {:induction false} CaseOpenReadsBack(name: string, classname: string)
    requires '"' !in name && '"' !in classname
    ensures ReadCaseOpen(CaseOpen(name, classname)) == Some((name, classname))
  {
    var rest := ClassnameStart + classname + OpenEnd;
    assert CaseOpen(name, classname) == CaseNameStart + name + rest;
    ReadFieldBack(CaseNameStart, name, rest);
    ReadFieldBack(ClassnameStart, classname, OpenEnd);
  }

  /** The status an element inside a `<testcase>` stands for. */
  function ReadStatus(line: string): (r: Option<Status>)
    ensures r.Some? ==> r.value != Passed && StatusElement(r.value) == line
  {
    if line == ErrorElement then Some(Error)
    else if line == FailureElement then Some(Failed)
    else if line == SkippedElement then Some(Skipped)
    else None
  }

  /**
   * The testcases in a run of testcase lines: an opening line, then either the closing
   * line (a pass) or one status element and the closing line.
   */
  function ReadCases(lines: seq<string>): Option<seq<Testcase>>
    decreases |lines|
  {
    if lines == [] then Some([])
    else
      match ReadCaseOpen(lines[0])
      case None => None
      case Some((name, classname)) =>
        if |lines| >= 2 && lines[1] == CaseClose then
          match ReadCases(lines[2..])
          case None => None
          case Some(rest) => Some([Testcase(name, classname, Passed)] + rest)
        else if |lines| >= 3 && lines[2] == CaseClose && ReadStatus(lines[1]).Some? then
          match ReadCases(lines[3..])
          case None => None
          case Some(rest) => Some([Testcase(name, classname, ReadStatus(lines[1]).value)] + rest)
        else None
  }

  /** One quotable testcase's lines, in front of lines that read back, read back in front. */
  lemma {:induction false} CaseReadsBack(tc: Testcase, rest: seq<string>)
    requires Quotable(tc) && ReadCases(rest).Some?
    ensures ReadCases(CaseLines(tc) + rest) == Some([tc] + ReadCases(rest).value)
  {
    CaseOpenReadsBack(tc.name, tc.classname);
    var lines := CaseLines(tc) + rest;
    if tc.status == Passed {
      PassedLines(tc, rest);
    } else {
      FailingLines(tc, rest);
    }
    ReadCasesStep(lines);
  }

  lemma {:induction false} PassedLines(tc: Testcase, rest: seq<string>)
    requires tc.status == Passed
    ensures var lines := CaseLines(tc) + rest;
      lines[0] == CaseOpen(tc.name, tc.classname) && lines[1] == CaseClose && lines[2..] == rest
  {
  }

  lemma {:induction false} FailingLines(tc: Testcase, rest: seq<string>)
    requires tc.status != Passed
    ensures var lines := CaseLines(tc) + rest;
      && lines[0] == CaseOpen(tc.name, tc.classname) && ReadStatus(lines[1]) == Some(tc.status)
      && lines[2] == CaseClose && lines[3..] == rest
  {
    var lines := CaseLines(tc) + rest;
    assert lines[1] == StatusElement(tc.status);
  }

  /** How `ReadCases` reads a testcase at the front of its lines. */
  lemma {:induction false} ReadCasesStep(lines: seq<string>)
    requires |lines| >= 2 && ReadCaseOpen(lines[0]).Some?
    ensures var (name, classname) := ReadCaseOpen(lines[0]).value;
      && (lines[1] == CaseClose && ReadCases(lines[2..]).Some? ==>
        ReadCases(lines) == Some([Testcase(name, classname, Passed)] + ReadCases(lines[2..]).value))
      && (|lines| >= 3 && ReadStatus(lines[1]).Some? && lines[2] == CaseClose && ReadCases(lines[3..]).Some? ==>
        ReadCases(lines) == Some([Testcase(name, classname, ReadStatus(lines[1]).value)] + ReadCases(lines[3..]).value))
  {
  }

  /** The lines of quotable testcases read back as those testcases. */
  lemma {:induction false} CasesReadBack(tcs: seq<Testcase>)
    requires forall i :: 0 <= i < |tcs| ==> Quotable(tcs[i])
    ensures ReadCases(CasesLines(tcs)) == Some(tcs)
  {
    if tcs != [] {
      CasesReadBack(tcs[1..]);
      CaseReadsBack(tcs[0], CasesLines(tcs[1..]));
      assert tcs == [tcs[0]] + tcs[1..];
    }
  }

  /* ---------------------------------------------------------------- the suite */

  /** A field of decimal digits after `pre`, and the rest of the line from the closing quote on. */
  function ReadNumber(s: string, pre: string): Option<(nat, string)>
  {
    match ReadField(s, pre)
    case None => None
    case Some((digits, rest)) =>
      match ParseDecimal(digits)
      case None => None
      case Some(n) => Some((n, rest))
  }

  /** A number rendered after `pre` and followed by a quote is read back. */
  lemma {:induction false} ReadNumberBack(pre: string, n: nat, rest: string)
    requires |rest| > 0 && rest[0] == '"'
    ensures ReadNumber(pre + DecimalString(n) + rest, pre) == Some((n, rest))
  {
    var d := DecimalString(n);
    assert '"' !in d by {
      assert forall k :: 0 <= k < |d| ==> '0' <= d[k] <= '9';
    }
    ReadFieldBack(pre, d, rest);
    DecimalRoundTrip(n);
  }

  /** The four counters of a report. */
  datatype Header = Header(tests: nat, failures: nat, errors: nat, skipped: nat)

  /** The counters of a `<testsuite>` opening line. */
  function ReadSuiteOpen(line: string): Option<Header>
  {
    match ReadNumber(line, SuiteTestsStart)
    case None => None
    case Some((tests, r1)) =>
      match ReadNumber(r1, FailuresStart)
      case None => None
      case Some((failures, r2)) =>
        match ReadNumber(r2, ErrorsStart)
        case None => None
        case Some((errors, r3)) =>
          match ReadNumber(r3, SkippedStart)
          case None => None
          case Some((skipped, r4)) =>
            if r4 == OpenEnd then Some(Header(tests, failures, errors, skipped)) else None
  }

  /** The `<testsuite>` line reads back as the counters it was built from. */
  lemma {:induction false} SuiteOpenReadsBack(tests: nat, failures: nat, errors: nat, skipped: nat)
    ensures ReadSuiteOpen(SuiteOpen(tests, failures, errors, skipped)) == Some(Header(tests, failures, errors, skipped))
  {
    var r4 := SkippedStart + DecimalString(skipped) + OpenEnd;
    var r3 := ErrorsStart + DecimalString(errors) + r4;
    var r2 := FailuresStart + DecimalString(failures) + r3;
    Regroup(SuiteTestsStart, DecimalString(tests), FailuresStart, DecimalString(failures),
      ErrorsStart, DecimalString(errors), SkippedStart, DecimalString(skipped), OpenEnd);
    ReadNumberBack(SuiteTestsStart, tests, r2);
    ReadNumberBack(FailuresStart, failures, r3);
    ReadNumberBack(ErrorsStart, errors, r4);
    ReadNumberBack(SkippedStart, skipped, OpenEnd);
  }

  /** Concatenation read left to right is the same as read as nested attributes. */
  lemma {:induction false} Regroup(a: string, t: string, b: string, f: string, c: string, e: string, d: string, k: string, z: string)
    ensures a + t + b + f + c + e + d + k + z == a + t + (b + f + (c + e + (d + k + z)))
  {
    assert c + e + d + k + z == c + e + (d + k + z);
    assert b + f + c + e + d + k + z == b + f + (c + e + d + k + z);
  }

  /** What a report says: its counters and its testcases in order. */
  datatype Report = Report(header: Header, cases: seq<Testcase>)

  /**
   * A whole report: the XML declaration, the `<testsuite>` line, the testcase lines and
   * `</testsuite>`.
   */
  function ReadReport(lines: seq<string>): Option<Report>
  {
    if |lines| < 3 || lines[0] != XmlDeclaration || lines[|lines| - 1] != SuiteClose then None
    else
      match ReadSuiteOpen(lines[1])
      case None => None
      case Some(header) =>
        match ReadCases(lines[2..|lines| - 1])
        case None => None
        case Some(cases) => Some(Report(header, cases))
  }

  /** The number of testcases in `tcs` with the given status. */
  function CountStatus(tcs: seq<Testcase>, status: Status): (r: nat)
    ensures r <= |tcs|
  {
    if tcs == [] then 0 else CountStatus(tcs[..|tcs| - 1], status) + (if tcs[|tcs| - 1].status == status then 1 else 0)
  }

  /** Over a run of specs, each counter is the number of testcases with its status. */
  lemma {:induction false} CountersMatchCases(h: seq<Event>, status: Status)
    requires OnlySpecs(h)
    ensures Counted(h, status) == CountStatus(CasesOf(h), status)
  {
    if h != [] {
      var before := h[..|h| - 1];
      CountersMatchCases(before, status);
      assert CasesOf(h)[..|h| - 1] == CasesOf(before);
    }
  }

  /** Every event of `h` is a spec whose testcase is quotable. */
  predicate QuotableSpecs(h: seq<Event>)
  {
    forall i :: 0 <= i < |h| ==> h[i].SpecDone? && Quotable(h[i].tc)
  }

  /**
   * After N specs and one `suiteEnded`, the buffer reads back as a report whose header says
   * `tests` = N and whose failure, error and skip counters are the numbers of testcases
   * with those statuses, followed by the testcases in the order received.
   */
  lemma {:induction false} ReportReadsBack(h: seq<Event>)
    requires QuotableSpecs(h)
    ensures OnlySpecs(h)
    ensures ReadReport(Buffer(h + [SuiteDone])) == Some(Report(
      Header(|h|, CountStatus(CasesOf(h), Failed), CountStatus(CasesOf(h), Error), CountStatus(CasesOf(h), Skipped)),
      CasesOf(h)))
  {
    var cases := CasesOf(h);
    SingleSuiteDocument(h);
    CountersMatchCases(h, Failed);
    CountersMatchCases(h, Error);
    CountersMatchCases(h, Skipped);
    var header := Header(|h|, Counted(h, Failed), Counted(h, Error), Counted(h, Skipped));
    SuiteOpenReadsBack(header.tests, header.failures, header.errors, header.skipped);
    CasesAreEventCases(h);
    CasesReadBack(cases);
    DocumentReadsBack(SuiteOpen(header.tests, header.failures, header.errors, header.skipped), CasesLines(cases));
  }

  /** A document whose `<testsuite>` line and testcase lines read back, reads back as both. */
  lemma {:induction false} DocumentReadsBack(open: string, body: seq<string>)
    requires ReadSuiteOpen(open).Some? && ReadCases(body).Some?
    ensures ReadReport([XmlDeclaration, open] + body + [SuiteClose])
      == Some(Report(ReadSuiteOpen(open).value, ReadCases(body).value))
  {
    DocumentLines(open, body);
    ReadReportStep([XmlDeclaration, open] + body + [SuiteClose]);
  }

  lemma {:induction false} DocumentLines(open: string, body: seq<string>)
    ensures var lines := [XmlDeclaration, open] + body + [SuiteClose];
      && |lines| >= 3 && lines[0] == XmlDeclaration && lines[1] == open
      && lines[|lines| - 1] == SuiteClose && lines[2..|lines| - 1] == body
  {
    var lines := [XmlDeclaration, open] + body + [SuiteClose];
    assert lines[2..|lines| - 1] == body;
  }

  /** How `ReadReport` reads a document that starts and ends as a report does. */
  lemma {:induction false} ReadReportStep(lines: seq<string>)
    requires |lines| >= 3 && lines[0] == XmlDeclaration && lines[|lines| - 1] == SuiteClose
    requires ReadSuiteOpen(lines[1]).Some? && ReadCases(lines[2..|lines| - 1]).Some?
    ensures ReadReport(lines) == Some(Report(ReadSuiteOpen(lines[1]).value, ReadCases(lines[2..|lines| - 1]).value))
  {
  }

  /** The testcases of a run of specs are the ones its events recorded, position by position. */
  lemma {:induction false} CasesAreEventCases(h: seq<Event>)
    requires OnlySpecs(h)
    ensures forall i :: 0 <= i < |h| ==> CasesOf(h)[i] == h[i].tc
  {
    if h != [] {
      CasesAreEventCases(h[..|h| - 1]);
    }
  }

  /** Every testcase `specEnded` derives is quotable: both values lose their double quotes. */
  lemma {:induction false} CaseOfQuotable(specPath: string, counts: SpecCounts)
    ensures Quotable(CaseOf(specPath, counts))
  {
  }

  /* ---------------------------------------------------------------- the file */

  /** A file the formatter wrote: its lines, split at line feeds, read as a report. */
  function ReadFile(contents: string): Option<Report>
  {
    ReadReport(Split(contents, '\n'))
  }

  /** No line of `lines` holds a line feed. */
  predicate SingleLines(lines: seq<string>)
  {
    forall i :: 0 <= i < |lines| ==> '\n' !in lines[i]
  }

  /** Every event of `h` is a spec whose name and classname hold no line feed. */
  predicate SingleLineSpecs(h: seq<Event>)
  {
    forall i :: 0 <= i < |h| ==> h[i].SpecDone? && '\n' !in h[i].tc.name && '\n' !in h[i].tc.classname
  }

  /** The lines of testcases whose values hold no line feed hold none either. */
  lemma {:induction false} CasesLinesSingle(tcs: seq<Testcase>)
    requires forall i :: 0 <= i < |tcs| ==> '\n' !in tcs[i].name && '\n' !in tcs[i].classname
    ensures SingleLines(CasesLines(tcs))
  {
    if tcs != [] {
      CasesLinesSingle(tcs[1..]);
      var own := CaseLines(tcs[0]);
      assert SingleLines(own);
      var lines := CasesLines(tcs);
      assert lines == own + CasesLines(tcs[1..]);
      assert forall i :: 0 <= i < |lines| ==> lines[i] == if i < |own| then own[i] else CasesLines(tcs[1..])[i - |own|];
    }
  }

  /** The `<testsuite>` line holds no line feed. */
  lemma {:induction false} SuiteOpenSingle(tests: nat, failures: nat, errors: nat, skipped: nat)
    ensures '\n' !in SuiteOpen(tests, failures, errors, skipped)
  {
    var t, f, e, k := DecimalString(tests), DecimalString(failures), DecimalString(errors), DecimalString(skipped);
    DigitsSingle(t);
    DigitsSingle(f);
    DigitsSingle(e);
    DigitsSingle(k);
    assert '\n' !in SuiteTestsStart;
    assert '\n' !in FailuresStart;
    assert '\n' !in ErrorsStart;
    assert '\n' !in SkippedStart;
    assert '\n' !in OpenEnd;
  }

  lemma {:induction false} DigitsSingle(d: string)
    requires IsDigits(d)
    ensures '\n' !in d
  {
    assert forall k :: 0 <= k < |d| ==> '0' <= d[k] <= '9';
  }

  /**
   * After N specs whose values hold neither double quotes nor line feeds, and one
   * `suiteEnded`, the contents of the file read back as the report: `tests` = N, the
   * other counters the numbers of testcases with their status, and the testcases in the
   * order received.
   */
  lemma {:induction false} FileReadsBack(h: seq<Event>)
    requires QuotableSpecs(h) && SingleLineSpecs(h)
    ensures OnlySpecs(h)
    ensures ReadFile(Join(Buffer(h + [SuiteDone]), "\n")) == Some(Report(
      Header(|h|, CountStatus(CasesOf(h), Failed), CountStatus(CasesOf(h), Error), CountStatus(CasesOf(h), Skipped)),
      CasesOf(h)))
  {
    ReportReadsBack(h);
    var cases := CasesOf(h);
    CasesAreEventCases(h);
    CasesLinesSingle(cases);
    var open := SuiteOpen(|h|, Counted(h, Failed), Counted(h, Error), Counted(h, Skipped));
    SuiteOpenSingle(|h|, Counted(h, Failed), Counted(h, Error), Counted(h, Skipped));
    SingleSuiteDocument(h);
    DocumentSingle(open, CasesLines(cases));
    SplitJoin(Buffer(h + [SuiteDone]), '\n');
  }

  /** A document made of single lines is single lines. */
  lemma {:induction false} DocumentSingle(open: string, body: seq<string>)
    requires '\n' !in open && SingleLines(body)
    ensures SingleLines([XmlDeclaration, open] + body + [SuiteClose])
  {
    var lines := [XmlDeclaration, open] + body + [SuiteClose];
    assert forall i :: 2 <= i < |lines| - 1 ==> lines[i] == body[i - 2];
  }
}
