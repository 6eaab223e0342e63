# SemVer 2.0.0 parser, comparator and version operators (zmarko/semver)

A Dafny model of the core of the C++ library `semver` by zmarko:

- `Semver200_parser::parse`: a single pass over the characters of a version
  string. A phase variable (major, minor, patch, release, build) moves on
  trigger characters ('.', '-', '+'). Each phase has a validator, and a hook
  finalizes each prerelease or build identifier. The pass yields a
  `Version_data`, or it throws `Parse_error`. Modules `Semver200Parser`,
  `ParserScan`, `ParserRoundTrip`, `ParserReverse`, `ParserPending` and
  `ParserExamples`.
- `Semver200_comparator::compare`: the three-way SemVer 2.0.0 precedence
  comparison. Modules `Semver200Comparator` and `StringOrder`; the latter is
  `std::string::compare`.
- From `include/version.inl`: `splice`, `prerelease()`, `build()`,
  `operator<<` (module `VersionRender`) and the six comparison operators
  (module `VersionOperators`).

`VersionModel` holds the parsed data: `Version_data`, `Prerelease_identifier`
and `Identifier_type`. `Decimal` holds digit strings and their values.
`Wrappers` holds `Option` and `Result`.

How the source is represented:

- A thrown `Parse_error` becomes a `Failure` with a `ParseError`; `Message`
  gives the text the source throws.
- The output stream of `operator<<` becomes a returned string.
- Numbers are unbounded `nat`.

The parser comes in two dialects:

- `AsWritten` follows the source. In `process_char`, `prev_phase` and
  `phase` are updated before the hook runs.
- `Corrected` runs the hook first.

The two agree on every input in which no '.' follows a '+'
(`ParserReverse.DialectsAgree`). They also agree on every input that the
parser as written accepts with at most one build identifier
(`ParserReverse.RenderOfParse`).

The main results are:

- Round trips. Parsing the rendering of a well-formed version gives it back
  (`ParserRoundTrip.RoundTrip`): with the corrected parser always; with the
  parser as written only when there is no prerelease part or at most one
  build identifier. Otherwise the parser as written drops the last
  prerelease identifier (`ParserRoundTrip.ParseDropsLastPrerelease`), so
  "1.0.0-a+b.c" parses to 1.0.0+b.c (`ParserExamples.LostPrerelease`). The
  text of every successful corrected parse renders back to itself
  (`ParserReverse.RenderOfParseCorrected`).
- What the parser as written accepts. The strings it turns into a version
  `v` are the rendering of `v` when that survives the round trip, and, when
  `v` has two or more build identifiers, that rendering with one more
  prerelease identifier before the '+'. That identifier may be any run of
  [0-9A-Za-z-], empty included (`ParserConverse.AcceptedAsWrittenExactly`).
- The comparator equals the precedence order of section 11 of the SemVer
  2.0.0 specification on every pair of parsed versions
  (`Semver200Comparator.CompareMatchesPrecedence`). It is reflexive,
  antisymmetric and transitive, and it ignores build identifiers.
- Three places where the code does not do what it evidently intends. See
  "## Findings".

Where the tests and the code disagree, the model follows the code:

- `test/semver200_comparator_tests.cpp:92-102` expects `compare` to return 1
  for two identical versions. The code returns 0 (`Semver200Comparator.CompareReflexive`).
- Lines 112-114 of the same file expect `1.1.3-alpha` to be above
  `1.1.3-beta`. The code orders it below.
- Lines 116-118 and 124-126 of the same file expect exactly -1 for
  `1.1.3-beta` against `1.1.3-gamma` and for `1.1.3-beta3` against
  `1.1.3-beta5`. The code returns the raw `std::string::compare` value,
  which with the byte-wise `memcmp` the model assumes is -5 and -2
  (`VersionOperators.OperatorsMissCharacterDifference`,
  `VersionOperators.BetaThreeAgainstBetaFive`); the tests pass only with a
  `memcmp` that returns -1 or 1.
- The parser tests at `test/semver200_parser_tests.cpp:108-133` and `:255-257`
  describe the behaviour of the corrected dialect (Findings, first row).

## Model

| member | source | states |
|---|---|---|
| Decimal.ToDecimal | include/version.inl:87 | the decimal text printed for a number is non-empty, all digits, starts with '0' only for zero, has no leading zero, and reads back as the same number |
| Decimal.ValueInjective | src/Semver200_parser.cpp:58-61 | two digit strings without a superfluous leading zero have the same value exactly when they are the same string, so the text `stoi` reads is determined by the number |
| VersionModel.WellFormedIsComparable | src/Semver200_comparator.cpp:51-53 | every numeric prerelease identifier the parser can emit is digit text that `stoi` accepts |
| Semver200Parser.NormalVersionValidator | src/Semver200_parser.cpp:58-61 | on a digit field, a character is accepted exactly when the field with it appended is still digits with no superfluous leading zero |
| Semver200Parser.ReleaseVersionValidator | src/Semver200_parser.cpp:63-66 | apart from '.', which is always a trigger in those phases, a character is accepted exactly when it can appear in an identifier |
| Semver200Parser.TransitionFor | src/Semver200_parser.cpp:111-127 | only '.', '-' and '+' are triggers; no transition leads back to major; only '+' enters the build phase from another phase; hooks run only on a '.' that stays in its phase |
| Semver200Parser.FinalizeRelease | src/Semver200_parser.cpp:90-101 | the release hook on identifier text succeeds exactly when the text, with the kind the parser gives it, is a valid prerelease identifier (non-empty, no numeric leading zero) |
| Semver200Parser.FinalizeBuild | src/Semver200_parser.cpp:103-109 | the build hook succeeds exactly when the build identifier is non-empty and, if the previous phase was the release phase, the pending prerelease identifier is valid; with any other previous phase the prerelease part is untouched |
| Semver200Parser.StepRejects | src/Semver200_parser.cpp:53-66 | a non-digit in major/minor/patch that is not the phase's separator fails with "invalid character"; a digit after a lone "0" fails with "leading 0"; a character outside [0-9A-Za-z-] fails in prerelease and build; '+' inside the build part fails; any other non-trigger character only extends the phase's accumulator |
| Semver200Parser.TakeTransition | src/Semver200_parser.cpp:44-52 | a transition leaves the parser in the target phase with the previous phase remembered, and keeps the accumulators valid |
| Semver200Parser.AppendChar | src/Semver200_parser.cpp:53-55 | appending a character the phase's validator lets through keeps every accumulator and identifier list valid, touching only the current phase's accumulator |
| Semver200Parser.FinalizeReleaseKeepsInv | src/Semver200_parser.cpp:90-101 | the release hook adds only a non-empty, correctly classified identifier without a numeric leading zero, and leaves the phases alone |
| Semver200Parser.FinalizeBuildKeepsInv | src/Semver200_parser.cpp:103-109 | the build hook adds only non-empty identifiers, and leaves the phases alone |
| Semver200Parser.Step | src/Semver200_parser.cpp:44-56 | one character keeps the invariant that every accumulator and identifier list holds only what the validators allow |
| Semver200Parser.Scan | src/Semver200_parser.cpp:128-147 | the character loop keeps that invariant over any input |
| Semver200Parser.Finish | src/Semver200_parser.cpp:151-156 | finalizing the last identifier keeps the invariant |
| Semver200Parser.Stoi | src/Semver200_parser.cpp:158-162 | `stoi` of digit text fails, with `invalid_argument`, exactly on the empty text; on text without a superfluous leading zero the number it reads prints back as that text |
| Semver200Parser.Convert | src/Semver200_parser.cpp:158-162 | conversion fails, with the `invalid_argument` message, exactly when a normal field is empty; otherwise each number prints back as its field text and the identifier lists pass through |
| Semver200Parser.Parse | src/Semver200_parser.cpp:80-163 | a successful parse has only non-empty identifiers of [0-9A-Za-z-]; each prerelease identifier's kind is numeric exactly when it is all digits; no numeric one has a leading zero |
| Semver200Parser.ParseWith | src/Semver200_parser.cpp:80-163 | in either dialect, the character loop, the end-of-input hooks and the conversion yield only well-formed versions |
| Semver200Parser.ParseCorrected | src/Semver200_parser.cpp:103-109 | the parser with the hook run before the phase update gives the same guarantees on success |
| ParserScan.ScanAppend | src/Semver200_parser.cpp:128-147 | the loop over a concatenation is the loop over the first part continued on the second from where it stopped |
| ParserScan.ScanAccumulates | src/Semver200_parser.cpp:53-55 | a run of characters a phase accepts only grows that phase's accumulator |
| ParserScan.ScanPrerelease | src/Semver200_parser.cpp:90-101 | scanning dot-joined valid prerelease identifiers finalizes all but the last, in order, and leaves the last pending |
| ParserScan.ScanBuild | src/Semver200_parser.cpp:103-109 | scanning dot-joined build identifiers finalizes all but the last; the first '.' also finalizes a pending prerelease identifier only in the corrected dialect |
| ParserRoundTrip.RoundTrip | include/version.inl:85-97 | parsing the rendering of a well-formed version gives the same version back: always with the corrected parser, and as written when there is no prerelease or at most one build identifier |
| ParserRoundTrip.ParseDropsLastPrerelease | src/Semver200_parser.cpp:44-56 | as written, a version with prerelease identifiers and two or more build identifiers parses back without its last prerelease identifier |
| ParserReverse.ScanConsumed | src/Semver200_parser.cpp:128-147 | every state the corrected scan reaches accounts for exactly the input consumed so far (the parser as written breaks this once it drops a pending prerelease identifier) |
| ParserReverse.RenderOfParseCorrected | include/version.inl:85-97 | every string the corrected parser accepts is the rendering of its result, so the parser accepts only canonical text and loses nothing |
| ParserReverse.ScanAgrees | src/Semver200_parser.cpp:103-109 | as long as no build identifier has been finalized, the two dialects scan identically |
| ParserReverse.RenderOfParse | src/Semver200_parser.cpp:151-156 | on every text the parser as written accepts with at most one build identifier in the result, it agrees with the corrected parser, and its result renders back to the text |
| ParserReverse.DialectsAgree | src/Semver200_parser.cpp:44-56 | on every text in which no '.' follows a '+', the build hook never runs on a '.', and the parser as written gives exactly what the corrected one gives, failures included |
| ParserConverse.AcceptedAsWritten | src/Semver200_parser.cpp:80-163 | every text the parser as written accepts is the rendering of its result, or has two or more build identifiers and is that rendering with one more run of [0-9A-Za-z-] added as the last prerelease identifier |
| ParserConverse.AcceptedAsWrittenExactly | src/Semver200_parser.cpp:80-163 | for a well-formed `v`, the parser as written returns `v` exactly on its rendering (when that survives the round trip) and, with two or more build identifiers, on its rendering with any one run of [0-9A-Za-z-] added before the '+' |
| ParserExamples.RejectsLeadingZero | test/semver200_parser_tests.cpp:163-165 | "01.0.0" fails with "leading 0 not allowed" |
| ParserExamples.RejectsLeadingDash | test/semver200_parser_tests.cpp:175-177 | "-1.0.0" fails on the invalid character '-' |
| ParserExamples.RejectsFourthNumber | test/semver200_parser_tests.cpp:50-52 | "1.2.3.4" fails on the invalid character '.' |
| ParserExamples.RejectsEmptyMajor | test/semver200_parser_tests.cpp:139-141 | ".0.0" fails in `stoi` |
| ParserExamples.RejectsEmptyMinor | test/semver200_parser_tests.cpp:143-145 | "1..0" fails in `stoi` |
| ParserExamples.RejectsEmptyPatch | test/semver200_parser_tests.cpp:147-149 | "1.1." fails in `stoi` |
| ParserExamples.RejectsBadBuildChar | test/semver200_parser_tests.cpp:211-213 | "1.0.0+build#1" fails on the invalid character '#' |
| ParserExamples.RejectsEmptyBuild | test/semver200_parser_tests.cpp:215-217 | "1.0.0+build..test" fails with "version identifier cannot be empty", in both dialects |
| ParserExamples.RejectsEmptyPrerelease | test/semver200_parser_tests.cpp:195-197 | "1.0.0-prerel..test" fails with "version identifier cannot be empty" |
| ParserExamples.LostPrerelease | src/Semver200_parser.cpp:103-109 | as written "1.0.0-a+b.c" parses with no prerelease identifier; corrected it keeps "a" |
| ParserExamples.AcceptsLeadingZeroBeforeBuild | test/semver200_parser_tests.cpp:255-257 | as written "1.0.0-prerel.01+build.1.2.3" is accepted, with "01" silently dropped |
| ParserExamples.CorrectedRejectsLeadingZeroBeforeBuild | test/semver200_parser_tests.cpp:255-257 | corrected, the same input fails with "numeric identifiers cannot have leading 0" |
| ParserPending.ParseIgnoresPendingIdentifier | src/Semver200_parser.cpp:44-56 | as written, a well-formed version with two or more build identifiers, with any run of [0-9A-Za-z-] (empty, or numeric with a leading zero, included) added as one more prerelease identifier, parses to the version without it |
| ParserPending.CorrectedRejectsPendingIdentifier | src/Semver200_parser.cpp:90-109 | corrected, the same text fails at the first '.' of the build part with "version identifier cannot be empty" or "numeric identifiers cannot have leading 0" when the added identifier is invalid |
| ParserPending.CorrectedKeepsPendingIdentifier | src/Semver200_parser.cpp:90-109 | corrected, a valid added identifier is kept as the last prerelease identifier |
| ParserPending.PendingIdentifierDialects | src/Semver200_parser.cpp:44-109 | on such text the parser as written always gives back the version without the added identifier, while the corrected one succeeds exactly when the added identifier is a valid prerelease identifier, and then keeps it |
| ParserPending.AcceptsEmptyPrerelease | test/semver200_parser_tests.cpp:195-197 | as written "1.0.0-+b.c" is accepted with no prerelease identifier; corrected it fails with "version identifier cannot be empty" |
| ParserPending.AcceptsEmptyLastPrerelease | test/semver200_parser_tests.cpp:195-197 | as written "1.0.0-a.+b.c" is accepted with the single prerelease identifier "a"; corrected it fails with "version identifier cannot be empty" |
| VersionRender.SpliceStartsWithFirst | include/version.inl:36-42 | the joined text starts with the first piece, followed by the separator when there are more pieces |
| VersionRender.PrereleaseTextSplits | include/version.inl:60-65 | `prerelease()` of a well-formed version cuts back at '.' into exactly its identifier texts |
| VersionRender.BuildTextSplits | include/version.inl:67-72 | `build()` of a well-formed version cuts back at '.' into exactly its build identifiers |
| ParserRoundTrip.RenderInjective | include/version.inl:85-97 | two well-formed versions print the same text exactly when they are equal |
| VersionRender.RenderAsWritten | include/version.inl:85-97 | `operator<<` as written has defined output exactly when both identifier lists are non-empty, whatever the identifiers hold |
| VersionRender.SplitSplice | include/version.inl:36-42 | joining identifiers that hold no '.' with '.' can be undone by cutting at '.', so `prerelease()` and `build()` lose nothing |
| VersionRender.SpliceAsWritten | include/version.inl:36-42 | `splice` has defined output exactly for non-empty vectors; joining pieces that hold no separator can then be undone by cutting at the separator, and the output is at least as long as the last piece |
| VersionRender.RenderAsWrittenDefinedOnlyWithBoth | include/version.inl:85-97 | `operator<<` as written has defined output exactly for versions with both prerelease and build identifiers, and then prints what `Render` prints |
| VersionRender.RenderAsWrittenPlainVersion | include/version.inl:85-97 | printing "1.0.0" as written has no defined output; the corrected rendering is "1.0.0" |
| StringOrder.StringCompare | src/Semver200_comparator.cpp:46 | `std::string::compare` is zero exactly on equal strings, and when one string is a prefix of the other it is the difference of their lengths |
| StringOrder.StringCompareSign | src/Semver200_comparator.cpp:46 | `std::string::compare` is zero exactly on equal strings, negative exactly when the left one is lexicographically smaller, positive exactly when it is larger |
| StringOrder.StringCompareAntisymmetric | src/Semver200_comparator.cpp:46 | swapping the operands of `std::string::compare` negates its value |
| StringOrder.StringCompareTransitive | src/Semver200_comparator.cpp:46 | the sign of `std::string::compare` is a transitive order |
| Semver200Comparator.Compare | src/Semver200_comparator.cpp:64-84 | versions whose normal triples differ compare as exactly -1 or 1; a zero result means equal triples, both or neither with prerelease identifiers, and identifiers that cannot be told apart position by position |
| Semver200Comparator.ComparePrereleaseFrom | src/Semver200_comparator.cpp:72-83 | a zero result of the identifier loop from position `i` means no position from `i` on holds identifiers the comparator can tell apart |
| Semver200Comparator.CompareNormal | src/Semver200_comparator.cpp:34-42 | the normal triples compare by major, then minor, then patch, with results in {-1, 0, 1} |
| Semver200Comparator.CompareIdentifiers | src/Semver200_comparator.cpp:44-59 | numeric identifiers compare by value with results in {-1, 0, 1}; numeric is below alphanumeric (exactly -1 / 1); alphanumeric ones compare by characters; zero exactly for indistinguishable identifiers |
| Semver200Comparator.IdentifierTransitive | src/Semver200_comparator.cpp:44-59 | the identifier comparison is transitive |
| Semver200Comparator.PrereleaseLengths | src/Semver200_comparator.cpp:74-83 | prerelease lists that compare equal have the same length |
| Semver200Comparator.CompareReflexive | src/Semver200_comparator.cpp:64-84 | every version compares equal to itself |
| Semver200Comparator.CompareAntisymmetric | src/Semver200_comparator.cpp:64-84 | swapping the operands flips the sign of the result |
| Semver200Comparator.CompareNegates | src/Semver200_comparator.cpp:64-84 | swapping the operands negates the result exactly |
| Semver200Comparator.CompareEqualSubstitutes | src/Semver200_comparator.cpp:64-84 | versions that compare equal compare the same way against any third version |
| Semver200Comparator.CompareTransitive | src/Semver200_comparator.cpp:64-84 | "compares below" is transitive |
| Semver200Comparator.CompareAtMostTransitive | src/Semver200_comparator.cpp:64-84 | "compares at most" is transitive |
| Semver200Comparator.CompareIgnoresBuild | src/Semver200_comparator.cpp:64-84 | build identifiers never change the result |
| Semver200Comparator.ReleaseAbovePrerelease | src/Semver200_comparator.cpp:68-70 | with equal normal triples, a release is exactly 1 above a prerelease and the prerelease exactly -1 below |
| Semver200Comparator.PrereleaseMatchesFrom | src/Semver200_comparator.cpp:72-83 | the identifier loop and length tie-break is the lexicographic order of prerelease lists, and zero exactly on equal lists |
| Semver200Comparator.CompareMatchesPrecedence | src/Semver200_comparator.cpp:64-84 | on parsed versions, negative, zero and positive are exactly "precedes", "same precedence (equal but for build)" and "follows" in SemVer 2.0.0 |
| VersionOperators.Less | include/version.inl:75-78 | `l < r` holds exactly when `compare(r, l)` is 1 |
| VersionOperators.Equal | include/version.inl:80-83 | `l == r` holds exactly when `compare(r, l)` is 0, and only for equal normal triples |
| VersionOperators.NotEqual | include/version.inl:100-103 | `!=` holds for all versions with different normal triples, and on unit results of `compare` exactly when `<` or `>` does |
| VersionOperators.Greater | include/version.inl:106-109 | `l > r` holds exactly when `compare(l, r)` is 1 |
| VersionOperators.GreaterEq | include/version.inl:112-115 | `>=` holds whenever `>` or `==` does, and on unit results of `compare` exactly then |
| VersionOperators.LessEq | include/version.inl:118-121 | `<=` holds whenever `<` or `==` does, and on unit results of `compare` exactly then |
| VersionOperators.Trichotomy | include/version.inl:75-121 | when `compare` returns -1, 0 or 1, exactly one of `<`, `==`, `>` holds, and `>=`, `<=`, `!=` mean "> or ==", "< or ==", "< or >" |
| VersionOperators.LessExcludesEqual | include/version.inl:75-83 | `<` and `==` never hold together, and `==` is symmetric |
| VersionOperators.UnitWithoutAlnumPrerelease | src/Semver200_comparator.cpp:44-59 | if the left version has no alphanumeric prerelease identifier, `compare` returns -1, 0 or 1 |
| VersionOperators.OperatorsMissLengthDifference | include/version.inl:75-121 | for 1.0.0-a and 1.0.0-abc `compare` gives libstdc++'s length difference -2, so as written none of `<`, `==`, `>` holds while `<=`, `>=` and `!=` all do |
| VersionOperators.OperatorsMissCharacterDifference | test/semver200_comparator_tests.cpp:116-118 | with a byte-wise `memcmp`, `compare` gives -5 for 1.1.3-beta and 1.1.3-gamma, so as written neither `<` nor `>` holds |
| VersionOperators.BetaThreeAgainstBetaFive | test/semver200_comparator_tests.cpp:124-126 | with a byte-wise `memcmp`, `compare` gives -2 for 1.1.3-beta3 and 1.1.3-beta5, not the -1 the test expects, so as written neither `<` nor `>` holds while the sign-tested `<` does |
| VersionOperators.TrichotomyBySign | include/version.inl:75-83 | testing the sign of `compare` gives trichotomy for every pair, agreeing with the operators as written on unit results |
| VersionOperators.LessBySignIsPrecedence | include/version.inl:75-83 | on parsed versions the sign-tested `<` is SemVer precedence and `==` is equality but for build identifiers |
| VersionOperators.LessBySignStrictOrder | include/version.inl:75-78 | the sign-tested `<` is irreflexive and transitive |

## Left out

- `src/version.cpp` is not part of this model. It holds an older `Semver200_parser::parse` (src/version.cpp:90-150) and a `Semver200_comparator::compare` stub that only does `throw 1` (src/version.cpp:154-155); the parser and comparator modelled are the ones in `src/Semver200_parser.cpp` and `src/Semver200_comparator.cpp`.
- `include/version.h` holds only declarations (`Basic_version` with its six operators, `Version_data`, `Parse_error`); the operators are modelled directly on `VersionData`, and the constructor and accessors of `Basic_version` are not modelled.
- `test/semver200_parser_util.h` holds the Boost.Test macros and value printers of the test suite; it is not part of this model.
- Semver200Parser.ParseError: the source walks the bytes of a `std::string`; the model walks Unicode characters. Every character the parser accepts is ASCII, so acceptance and the error kind are the same, but for a non-ASCII character the source reports its first UTF-8 byte (0xC3 for "1.0.0-é") where the model reports the whole character.
- The C++ `int` width of major, minor, patch and numeric prerelease identifiers is not modelled. `std::stoi` on text beyond `INT_MAX` throws `std::out_of_range`, which `parse` does not catch. The model reads every digit string as an unbounded `nat`.
- Semver200Parser.Message: the text of the `invalid_argument` that `std::stoi` throws depends on the standard library. The libstdc++ text "stoi" is used.
- `compare_prerel_identifiers` ends in a `throw logic_error` (src/Semver200_comparator.cpp:57-58). It cannot be reached with the two-valued identifier type, so it is not modelled.
- Semver200Comparator.Compare: requires numeric prerelease identifiers to hold digit text. The parser always produces such versions (`VersionModel.WellFormedIsComparable`). On a hand-built `Version_data` that violates this, the source either throws `invalid_argument` (when `stoi` reads no digits at all) or compares by the leading number that `stoi` does read: 12 for "12abc", and it also accepts leading whitespace and a sign, reading 7 from " 7" and "+7" and -3 from "-3". Neither behaviour is modelled.
- StringOrder.StringCompare: the C++ standard fixes only the sign of `std::string::compare`, not its value. When one text is a prefix of the other, libstdc++ returns the difference of the lengths itself; that part of the model is libstdc++'s own. Otherwise libstdc++ returns what `memcmp` gives on the common prefix, which the C library specifies only by sign; the model assumes the difference of the first differing characters, as a byte-wise `memcmp` gives, while a vectorised one may give -1 or 1. Every order lemma uses only the sign. The value -2 of `VersionOperators.OperatorsMissLengthDifference` is libstdc++'s own; the value -5 of `VersionOperators.OperatorsMissCharacterDifference` and the value -2 of `VersionOperators.BetaThreeAgainstBetaFive` hold only with a byte-wise `memcmp`. The source's own tests at `test/semver200_comparator_tests.cpp:116-118` and `:124-126` expect -1 for these two pairs: they pass only with a `memcmp` that returns -1 or 1, and fail under the byte-wise value the model assumes.
- VersionRender.Render tests whether each identifier list is non-empty, where `operator<<` tests whether the joined text is non-empty. The two agree on every version the parser produces (`VersionRender.RenderAsWrittenDefinedOnlyWithBoth`).
- The output stream of `operator<<` is replaced by a returned string. Stream state and formatting flags are not modelled.
- `prev_phase` is uninitialized in the source. It is read only by the build hook, after a transition has assigned it, so the model starts it at `Major`.

## Findings

| source | as written | input that shows it | evidently intended | confidence | as-written member | corrected member |
|---|---|---|---|---|---|---|
| src/Semver200_parser.cpp:44-56 | `process_char` assigns `prev_phase = phase` before running the hook. The build hook on a '.' inside the build part therefore always sees the build phase. It never finalizes the prerelease identifier still pending from before the '+', and the final flush at line 155 does not either once a '.' was read. | "1.0.0-a+b.c" parses with no prerelease identifier. "1.0.0-prerel.01+build.1.2.3" is accepted; the test at test/semver200_parser_tests.cpp:255-257 expects a failure. "1.0.0-+b.c" and "1.0.0-a.+b.c" are accepted with an empty prerelease identifier dropped (`ParserPending.AcceptsEmptyPrerelease`, `ParserPending.AcceptsEmptyLastPrerelease`); the tests at test/semver200_parser_tests.cpp:195-197 and :251-253 expect an empty prerelease identifier to fail, and the parser as written does reject it there, where a '.' follows it. | The pending prerelease identifier is finalized and validated when the build part starts, whatever follows. | high; not executed | ParserPending.ParseIgnoresPendingIdentifier | ParserPending.PendingIdentifierDialects |
| include/version.inl:75-83 | `<` is `compare(l, r) == -1` and `==` is `compare(l, r) == 0`. `compare` passes the raw `std::string::compare` result through for two alphanumeric identifiers, and that value need not be -1 or 1. | 1.0.0-a against 1.0.0-abc: `compare` is -2, libstdc++'s own length difference, so none of `<`, `==`, `>` holds while `<=`, `>=` and `!=` all do. 1.1.3-beta against 1.1.3-gamma gives -5 only with a byte-wise `memcmp` (`VersionOperators.OperatorsMissCharacterDifference`); that pair depends on the C library. | `<` tests `compare(l, r) < 0`, which gives trichotomy and SemVer precedence | high for the length difference with libstdc++, platform-dependent for the character difference; not executed | VersionOperators.OperatorsMissLengthDifference | VersionOperators.TrichotomyBySign |
| include/version.inl:36-42 | `splice` reads `*v.crbegin()` and loops to `v.cend() - 1` with no emptiness check. `operator<<` calls `prerelease()` and `build()`, and so `splice`, even when the lists are empty. | Printing the version 1.0.0 with no prerelease and no build identifiers reads before the start of an empty vector (undefined behaviour). | Join only non-empty lists; an empty list prints as nothing | high; not executed | VersionRender.RenderAsWrittenPlainVersion | ParserReverse.RenderOfParseCorrected |
