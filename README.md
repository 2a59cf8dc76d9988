# DaSpec JUnit XML formatter, modelled in Dafny

The DaSpec JUnit XML formatter is a report builder attached to a specification runner.
It resolves its output path from the configuration when it is created. It then listens
for two events:

- `specEnded`: counts the spec as executed, and as errored, failed or skipped; appends
  one `<testcase>` fragment to a line buffer.
- `suiteEnded`: puts a `<testsuite>` header built from the counters and an XML
  declaration in front of the buffer, closes the element, and writes the buffer joined
  by line feeds to the output file.

The test name of a spec is its path without double quotes, reduced to the last
component without extension. The classname is `daspec` for a spec without a directory,
and otherwise the directory with its first separator turned into a dot.

## Files

- `outcomes.dfy` (module `Outcomes`): `Option` and `Result`.
- `js_string.dfy` (module `JsString`): string operations on `seq<char>`. The formatter
  itself calls `indexOf`, the three kinds of `replace`, `substring` (as a slice) and
  `join`, and concatenates counters as decimals. `lastIndexOf` and `split` are there for
  the model of `path` and for the reader.
- `posix_path.dfy` (module `PosixPath`): the functions of Node's `path` module it calls,
  with the POSIX separator `/`. These are `isAbsolute`, `normalize` (a segment walk),
  `join` of two parts, `dirname`, `extname` and `basename(p, extname(p))`.
- `junit_xml_formatter.dfy` (module `JunitXmlFormatter`):
  - the status classification, test names, classnames and configuration;
  - the report lines;
  - the history of events and the functions of it that the state must match;
  - the class `Formatter`, with the four counters, the `lines` buffer, the resolved
    `fileName` and a ghost history `events`. `Valid()` ties every field to a function
    of that history.
- `junit_xml_reading.dfy` (module `JunitXmlReading`): a reader for the report format. It
  is used to prove that what the formatter writes reads back as the counters and
  testcases it recorded.
- `junit_xml_examples.dfy` (module `JunitXmlExamples`): concrete cases for names,
  classnames, statuses, configurations and a three-spec run, proved on the model.

## Model

| member | source | states |
|---|---|---|
| JunitXmlFormatter.SpecStatus | src/junit-xml-formatter.js:46-56 | each status holds if and only if its rule is the first to match: error for any nonzero `error`, then failed for `failed > 0`, then skipped for `skipped > 0` or nothing executed, else passed |
| JunitXmlFormatter.TestName | src/junit-xml-formatter.js:31-34 | the test name holds no double quote and no separator |
| JunitXmlFormatter.TestNameIsStem | src/junit-xml-formatter.js:31-34 | the test name is a prefix of the last component of the unquoted path: the whole component when it has no extension (a dotfile such as `.md` has none), otherwise the non-empty text before its last dot |
| JunitXmlFormatter.TestNameOfExtension | src/junit-xml-formatter.js:31-34 | an unquoted path ending in `stem.ext`, with or without directories in front, has test name `stem` |
| JunitXmlFormatter.TestNameOfDotfile | src/junit-xml-formatter.js:31-34 | an unquoted path ending in a dotfile `.ext` keeps `.ext` whole as its test name |
| JunitXmlFormatter.ClassPath | src/junit-xml-formatter.js:36-40 | the path after normalizing, stripping leading dots, removing double quotes and dropping an absolute root holds no double quote |
| JunitXmlFormatter.UnrootedPath | src/junit-xml-formatter.js:37-40 | what is kept of a normalized path once leading dots, double quotes and an absolute root are gone holds no double quote |
| JunitXmlFormatter.ClassName | src/junit-xml-formatter.js:35-45 | no double quote in the result; `daspec` when no separator is left in the class path; otherwise the dirname of the class path, character by character, with only its first separator replaced by a dot |
| JunitXmlFormatter.ClassNameOfClassPath | src/junit-xml-formatter.js:41-44 | the same choice stated for a given quote-free class path |
| JunitXmlFormatter.ClassNameOfDirs | src/junit-xml-formatter.js:41-44 | for a class path of directories `d1/.../dn` and a file name, the classname is `d1` for one directory, otherwise `d1.` followed by the other directories still joined by `/` |
| JunitXmlFormatter.DottedDirs | src/junit-xml-formatter.js:44 | the dirname of `d1/.../dn/file` with its first separator replaced is `d1` or `d1.d2/.../dn` |
| JunitXmlFormatter.ClassPathOfPlain | src/junit-xml-formatter.js:36-40 | the relative form `j`, the absolute form `/j` and the form `./../j` of plain, quote-free segments all have class path `j` |
| JunitXmlFormatter.ClassPathOfNormal | src/junit-xml-formatter.js:36-40 | a spec path that normalizes to `j`, `/j` or `../j` has class path `j` |
| JunitXmlFormatter.ClassNameOfPath | src/junit-xml-formatter.js:35-45 | directories and a file name give the same classname written relative, absolute or behind `./../` |
| JunitXmlFormatter.ClassNameOfFileOnly | src/junit-xml-formatter.js:41-42 | a bare file name has classname `daspec` |
| JunitXmlFormatter.RequestedName | src/junit-xml-formatter.js:15-18 | a missing or empty name becomes `report.xml`; a name is kept; an array gives its first element; only an empty array fails |
| JunitXmlFormatter.OutputPath | src/junit-xml-formatter.js:19-24 | a name with a separator is used as it is whatever `output-dir` says; any other name fails with `output-dir not set` when `output-dir` is unset, and is joined under it otherwise |
| JunitXmlFormatter.ParseConfig | src/junit-xml-formatter.js:14-25 | the step-by-step reassignment of `fileName` gives exactly `OutputPath` |
| JunitXmlFormatter.CaseLines | src/junit-xml-formatter.js:61-72 | a passed spec gets 2 lines and any other 3; the first is the opening line with the name and classname, the last is `</testcase>`, and the middle one is the element for the status |
| JunitXmlFormatter.CaseOpen | src/junit-xml-formatter.js:61 | the opening line starts with the name attribute holding the test name, ends the tag with `">`, and holds no line feed when neither attribute does |
| JunitXmlFormatter.SuiteOpen | src/junit-xml-formatter.js:75-77 | the header starts with the tests attribute holding the executed count in decimal, ends the tag with `">`, and never holds a line feed |
| JunitXmlFormatter.CaseOf | src/junit-xml-formatter.js:59-61 | the testcase of a spec has no double quote in its name or classname and no separator in its name, and gets a status element exactly when the counts show an error, a failure, a skip or nothing executed |
| JunitXmlFormatter.Buffer | src/junit-xml-formatter.js:58-80 | every event leaves at least two more lines in the buffer: a testcase is opened and closed, a suite end adds the declaration, the header and `</testsuite>` |
| JunitXmlFormatter.CountsPartitionExecuted | src/junit-xml-formatter.js:58-71 | the error, failure, skip and pass counts add up to the executed count |
| JunitXmlFormatter.CasesLinesAppend | src/junit-xml-formatter.js:61-72 | the lines of one more testcase go after the lines of the earlier ones |
| JunitXmlFormatter.BufferOfSpecs | src/junit-xml-formatter.js:58-73 | before any `suiteEnded`, the buffer is the testcase lines in the order received and `tests` is their number |
| JunitXmlFormatter.SingleSuiteDocument | src/junit-xml-formatter.js:74-80 | after N specs and one `suiteEnded`, the document is the declaration, the header with `tests` = N and the status counters, every testcase in order, and `</testsuite>` |
| JunitXmlFormatter.TracksSpec | src/junit-xml-formatter.js:58-72 | one `specEnded` keeps the counters and buffer equal to the functions of the history, and error + failed + skipped stays at most executed |
| JunitXmlFormatter.Formatter.constructor | src/junit-xml-formatter.js:7-13 | counters at zero, empty buffer, empty history, the given output path |
| JunitXmlFormatter.Formatter.Start | src/junit-xml-formatter.js:57 | creation fails exactly when the output path cannot be resolved, with that error; otherwise a fresh valid formatter writing to the resolved path |
| JunitXmlFormatter.Formatter.SpecEnded | src/junit-xml-formatter.js:58-73 | executed + 1; + 1 on the error, failure or skip counter of the status and on no other; the earlier lines unchanged with the spec's testcase lines appended; error + failed + skipped <= executed; the history grows by the spec |
| JunitXmlFormatter.Formatter.RecordCase | src/junit-xml-formatter.js:59-72 | the same state change for an already derived testcase |
| JunitXmlFormatter.Formatter.PushCase | src/junit-xml-formatter.js:61-72 | the pushes and the status counter of one testcase: the buffer grows by exactly its testcase lines |
| JunitXmlFormatter.Formatter.SuiteEnded | src/junit-xml-formatter.js:74-80 | counters unchanged; buffer becomes declaration, header from the current counters, old buffer, `</testsuite>`; the file written is the new buffer joined by line feeds, at the resolved path, in its directory |
| JunitXmlFormatter.Formatter.SaveSuiteFile | src/junit-xml-formatter.js:26-30 | the declaration goes in front of the buffer, and the write is the buffer joined by line feeds at `fileName` after its directory |
| JunitXmlReading.CaseOpenReadsBack | src/junit-xml-formatter.js:61 | an opening line with quote-free values reads back as its name and classname |
| JunitXmlReading.CaseReadsBack | src/junit-xml-formatter.js:61-72 | one testcase's lines in front of readable lines read back as that testcase in front |
| JunitXmlReading.CasesReadBack | src/junit-xml-formatter.js:61-72 | the lines of quotable testcases read back as exactly those testcases, in order |
| JunitXmlReading.SuiteOpenReadsBack | src/junit-xml-formatter.js:75-77 | the header reads back as the four counters it was built from |
| JunitXmlReading.CountersMatchCases | src/junit-xml-formatter.js:58-71 | over a run of specs, each status counter is the number of testcases with that status |
| JunitXmlReading.CaseOfQuotable | src/junit-xml-formatter.js:31-45 | every testcase `specEnded` derives has quote-free name and classname |
| JunitXmlReading.ReportReadsBack | src/junit-xml-formatter.js:74-80 | after N specs and one `suiteEnded` the buffer reads back as `tests` = N, the status counts of the testcases, and the testcases in order |
| JunitXmlReading.FileReadsBack | src/junit-xml-formatter.js:26-30 | the written file contents, split at line feeds, read back as the same report, when no value holds a line feed |
| JsString.IndexOf | src/junit-xml-formatter.js:19 | -1 exactly when the character is absent, otherwise the position of its first occurrence |
| JsString.LastIndexOf | src/junit-xml-formatter.js:33 | (supports the model of `path.basename` and `path.extname`) -1 exactly when the character is absent, otherwise the position of its last occurrence |
| JsString.RemoveAll | src/junit-xml-formatter.js:32 | no occurrence of the character is left, and a string without it is unchanged |
| JsString.RemoveAllKeepsOthers | src/junit-xml-formatter.js:32 | every other character is kept as often as it occurred |
| JsString.RemoveAllConcat | src/junit-xml-formatter.js:37 | removing from a concatenation removes from each part |
| JsString.StripLeading | src/junit-xml-formatter.js:37 | the result is a suffix, does not start with the character, and only that character was dropped |
| JsString.ReplaceFirst | src/junit-xml-formatter.js:44 | same length; only the first occurrence is replaced, every other character kept |
| JsString.SplitJoin | src/junit-xml-formatter.js:29 | splitting the join of separator-free parts gives the parts back |
| JsString.DecimalRoundTrip | src/junit-xml-formatter.js:75-77 | the decimal rendering of a counter reads back as that counter |
| PosixPath.IsAbsolute | src/junit-xml-formatter.js:38 | a path is absolute exactly when `indexOf` finds the separator at position 0, so the root is all that line 39 drops |
| PosixPath.Normalize | src/junit-xml-formatter.js:36 | the result is never empty, and it is absolute exactly when the input is: the joined segments never start with a separator |
| PosixPath.JoinPaths | src/junit-xml-formatter.js:23 | the joined path is never empty, and it is absolute exactly when its first non-empty part is |
| PosixPath.Dirname | src/junit-xml-formatter.js:44 | the directory part is never empty, and it is absolute exactly when the path is |
| PosixPath.Extname | src/junit-xml-formatter.js:33 | the extension is a tail of the last component, and when not empty it starts with a dot and holds no other dot |
| PosixPath.Stem | src/junit-xml-formatter.js:33 | the stem holds no separator and is a prefix of the last component |
| PosixPath.ExtnameIsLastDotSuffix | src/junit-xml-formatter.js:33 | the extension is empty exactly when the last component has none, and otherwise is the shorter tail from its last dot |
| PosixPath.StemOfComponent | src/junit-xml-formatter.js:33 | `basename(p, extname(p))` is the last component cut before its extension |
| PosixPath.StemKeepsOut | src/junit-xml-formatter.js:32-33 | a character absent from the path is absent from the stem |
| PosixPath.DirnameShape | src/junit-xml-formatter.js:44 | the dirname is `.`, the root, or a prefix of the path |
| PosixPath.ResolveClean | src/junit-xml-formatter.js:36 | normalized segments are clean, `..` only forms a leading run, and an absolute path keeps none |
| PosixPath.NormalizePlain | src/junit-xml-formatter.js:36 | a relative path of plain segments is already normal |
| PosixPath.NormalizeRootedPlain | src/junit-xml-formatter.js:36 | an absolute path of plain segments is already normal |
| PosixPath.NormalizeDotUpPlain | src/junit-xml-formatter.js:36 | `./../` before plain segments normalizes to `../` before them |
| PosixPath.JoinPathsPlain | src/junit-xml-formatter.js:23 | joining a plain name under a plain directory puts exactly one separator between them |
| PosixPath.DirnameOfFile | src/junit-xml-formatter.js:44 | the dirname of `d/f` is `d` |
| PosixPath.LastComponentOfFile | src/junit-xml-formatter.js:33 | the last component of `d/f`, and of `f`, is `f` |
| JunitXmlExamples.StatusExamples | src/junit-xml-formatter.js:46-56 | an error beats a failure, a failure beats a skip, nothing executed is a skip, all passed is a pass |
| JunitXmlExamples.TestNameExamples | src/junit-xml-formatter.js:31-34 | `folder/subfolder/specname.md` and `specname.md` give `specname` |
| JunitXmlExamples.DotfileTestNameExample | src/junit-xml-formatter.js:31-34 | `folder/.md` gives test name `.md` |
| JunitXmlExamples.DotfileClassNameExample | src/junit-xml-formatter.js:35-45 | `folder/.md` gives classname `folder` |
| JunitXmlExamples.ClassNameExamples | src/junit-xml-formatter.js:35-45 | `folder/subfolder/specname.md`, `/folder/subfolder/specname.md` and `./../folder/subfolder/specname.md` give `folder.subfolder` |
| JunitXmlExamples.ClassNameDefaultExample | src/junit-xml-formatter.js:41-42 | `specname.md` gives `daspec` |
| JunitXmlExamples.ClassNameFirstSeparatorExample | src/junit-xml-formatter.js:44 | `one/two/three/page.md` gives `one.two/three`: later separators stay |
| JunitXmlExamples.ClassNameDaspecDirectoryExample | src/junit-xml-formatter.js:41-44 | `daspec/x.md` keeps a separator in its class path yet gets classname `daspec` |
| JunitXmlExamples.QuotedExample | src/junit-xml-formatter.js:31-45 | `fo"lder/subfold"er/sp"ecn"ame` gives test name `specname` and classname `folder.subfolder` |
| JunitXmlExamples.ConfigWithoutDirExample | spec/junit-xml-formatter-spec.js:40-51 | without `output-dir`, no name and `test.xml` both fail with `output-dir not set` |
| JunitXmlExamples.ConfigFullNameExample | spec/junit-xml-formatter-spec.js:58-71 | a name with a directory is kept as it is, with or without `output-dir` |
| JunitXmlExamples.ConfigDefaultExample | spec/junit-xml-formatter-spec.js:53-57 | no name under `output-dir` gives `<output-dir>/report.xml` |
| JunitXmlExamples.ConfigArrayExample | spec/junit-xml-formatter-spec.js:79-84 | `['test.xml']` under `output-dir` gives `<output-dir>/test.xml` |
| JunitXmlExamples.ThreeSpecRun | src/junit-xml-formatter.js:58-80 | a pass, a failure and an error, then `suiteEnded`: counters 3, 1, 1, 0 and the document with the three testcases in order |
| JunitXmlExamples.RunDocument | src/junit-xml-formatter.js:58-80 | the same for any three testcases with those statuses |

## Left out

- File system effects: `mkdirp.sync` and `fs.writeFileSync` are not performed. `SuiteEnded` and `SaveSuiteFile` return a `FileWrite` value instead. It names the directory to create, the path, and the text.
- Event subscription: `runner.addEventListener` becomes plain calls of `SpecEnded` and `SuiteEnded`. The runner's arguments to `suiteEnded` are ignored by the source and are not parameters.
- Windows paths: the separator is fixed to `/`. `path.normalize` is modelled as its segment walk over `/`-separated segments. Only the two-argument `path.join` the formatter uses is modelled.
- XML escaping: the source escapes nothing except removing double quotes from names, so no well-formedness is claimed for names holding `<` or `&`.
- Line feeds in names: `FileReadsBack` needs values without line feeds, because the source joins lines with `\n` and a line feed inside a name would split a line.
- Numbers: JavaScript numbers are modelled as unbounded integers. Counts that are `NaN`, fractional or not numbers at all are not modelled. A missing count is modelled as 0, which is how the source's truthiness and `> 0` tests treat `undefined`.
- Configuration values: an unset or empty `output-dir` is the empty string, since both are falsy in the source. A name that is an array whose first element is not a string is not modelled. An empty array makes the source throw a TypeError; it is modelled as the error `FileNameUndefined`.
- The test file `spec/junit-xml-formatter-spec.js` changes `config` after the formatter is created and expects the error at `suiteEnded`. The source resolves the configuration at creation (`src/junit-xml-formatter.js:57`), so the model fails in `Start`. The configuration examples are therefore stated on `OutputPath`.
- Repeated `suiteEnded`: it is not idempotent. Each call wraps the whole buffer again in a declaration, a header and `</testsuite>`. `Buffer` models this accumulation; `SingleSuiteDocument`, `ReportReadsBack` and `FileReadsBack` describe a single call.
- JunitXmlFormatter.ClassName: the classname is `daspec` whenever no separator is left, but not only then. A spec in a directory named `daspec` (`daspec/x.md`) also gets `daspec`, as `ClassNameDaspecDirectoryExample` shows. So the "exactly when" reading is stated in the one direction that holds.
- JunitXmlFormatter.ClassName: the source replaces only the first separator of the dirname, because `String.prototype.replace` is given a string pattern. The model follows the code, not a reading in which every separator becomes a dot.
