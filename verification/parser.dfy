/**
 * The SemVer 2.0.0 parser: a single pass over the characters of the input,
 * driven by a phase (major, minor, patch, release, build) and a per-phase
 * transition table whose entries may run a hook that finalizes an identifier.
 */
module Semver200Parser {
  import opened Wrappers
  import opened Decimal
  import opened VersionModel

  datatype Phase = Major | Minor | Patch | Release | Build

  /** The action a transition runs on the accumulator it leaves. */
  datatype Hook = NoHook | ReleaseHook | BuildHook

  /**
   * When a transition runs its hook. `AsWritten` updates `prevPhase` and
   * `phase` first and runs the hook afterwards, so the build hook always sees
   * `prevPhase == Build` on a '.' inside the build part. `Corrected` runs the
   * hook first, so the build hook sees the phase of the transition before.
   */
  datatype Dialect = AsWritten | Corrected

  datatype ParseError =
    | InvalidCharacter(c: char)
    | LeadingZero
    | EmptyIdentifier
    | NumericLeadingZero
    | NotANumber

  function Message(e: ParseError): string {
    match e
    case InvalidCharacter(c) => "invalid character encountered: " + [c]
    case LeadingZero => "leading 0 not allowed"
    case EmptyIdentifier => "version identifier cannot be empty"
    case NumericLeadingZero => "numeric identifiers cannot have leading 0"
    // the text of std::invalid_argument thrown by std::stoi (libstdc++)
    case NotANumber => "stoi"
  }

  /** Everything the parse loop keeps between two characters. */
  datatype ParserState = ParserState(
    phase: Phase,
    prevPhase: Phase,
    major: string,
    minor: string,
    patch: string,
    releaseId: string,
    buildId: string,
    release: seq<PrereleaseIdentifier>,
    build: seq<string>)

  /**
   * The state before the first character. The source leaves `prev_phase`
   * uninitialized; it is only read after a transition into the build phase
   * has assigned it, so the initial value here is never observed.
   */
  const Initial := ParserState(Major, Major, [], [], [], [], [], [], [])

  predicate IsNormalPhase(p: Phase) {
    p == Major || p == Minor || p == Patch
  }

  /** The transition tables: the phase a trigger character leads to and its hook. */
  function TransitionFor(phase: Phase, c: char): (r: Option<(Phase, Hook)>)
    ensures r.Some? ==> c == '.' || c == '-' || c == '+'
    ensures r.Some? ==> r.value.0 != Major
    // only '+' enters the build phase from another phase
    ensures r.Some? && r.value.0 == Build && phase != Build ==> c == '+'
    // hooks run only on a '.' that stays in its phase
    ensures r.Some? && r.value.1 != NoHook ==> c == '.' && r.value.0 == phase
  {
    match phase
    case Major => if c == '.' then Some((Minor, NoHook)) else None
    case Minor => if c == '.' then Some((Patch, NoHook)) else None
    case Patch =>
      if c == '-' then Some((Release, NoHook))
      else if c == '+' then Some((Build, NoHook))
      else None
    case Release =>
      if c == '.' then Some((Release, ReleaseHook))
      else if c == '+' then Some((Build, NoHook))
      else None
    case Build => if c == '.' then Some((Build, BuildHook)) else None
  }

  /** The accumulator characters of the current phase are appended to. */
  function Target(st: ParserState): string {
    match st.phase
    case Major => st.major
    case Minor => st.minor
    case Patch => st.patch
    case Release => st.releaseId
    case Build => st.buildId
  }

  function WithTarget(st: ParserState, t: string): ParserState {
    match st.phase
    case Major => st.(major := t)
    case Minor => st.(minor := t)
    case Patch => st.(patch := t)
    case Release => st.(releaseId := t)
    case Build => st.(buildId := t)
  }

  /** The validator of major, minor and patch characters. */
  function NormalVersionValidator(tgt: string, c: char): (r: Option<ParseError>)
    // accepted exactly when the field stays a decimal without a superfluous leading zero
    ensures AllDigits(tgt) ==> (r.None? <==> AllDigits(tgt + [c]) && NoLeadingZero(tgt + [c]))
  {
    assert (tgt + [c])[|tgt|] == c;
    if !IsDigit(c) then Some(InvalidCharacter(c))
    else if |tgt| > 0 && tgt[0] == '0' then Some(LeadingZero)
    else
      assert forall i :: 0 <= i < |tgt| ==> (tgt + [c])[i] == tgt[i];
      None
  }

  /** The validator of prerelease and build characters; '.' is always a trigger there. */
  function ReleaseVersionValidator(c: char): (r: Option<ParseError>)
    // apart from the '.' trigger, accepted exactly when `c` alone is an identifier
    ensures c != '.' ==> (r.None? <==> IsIdentifier([c]))
  {
    assert [c][0] == c;
    if !IsIdentChar(c) && c != '.' then Some(InvalidCharacter(c)) else None
  }

  /** The release hook: finalize the pending prerelease identifier. */
  function FinalizeRelease(st: ParserState): (r: Result<ParserState, ParseError>)
    ensures AllIdentChars(st.releaseId) ==> (r.Success? <==> ValidPrerelease(Classify(st.releaseId)))
  {
    var id := st.releaseId;
    if |id| == 0 then Failure(EmptyIdentifier)
    else if IsIdentifierNumeric(id) && HasLeadingZero(id) then Failure(NumericLeadingZero)
    else Success(st.(release := st.release + [Classify(id)], releaseId := []))
  }

  /**
   * The build hook: first finalize a prerelease identifier left over when the
   * previous phase was the release phase, then the pending build identifier.
   */
  function FinalizeBuild(st: ParserState): (r: Result<ParserState, ParseError>)
    ensures AllIdentChars(st.releaseId) ==>
      (r.Success? <==> |st.buildId| > 0 && (st.prevPhase == Release ==> ValidPrerelease(Classify(st.releaseId))))
    ensures r.Success? && st.prevPhase != Release ==> r.value.release == st.release && r.value.releaseId == st.releaseId
  {
    var st1 :- if st.prevPhase == Release then FinalizeRelease(st) else Success(st);
    if |st1.buildId| == 0 then Failure(EmptyIdentifier)
    else Success(st1.(build := st1.build + [st1.buildId], buildId := []))
  }

  function RunHook(hook: Hook, st: ParserState): Result<ParserState, ParseError> {
    match hook
    case NoHook => Success(st)
    case ReleaseHook => FinalizeRelease(st)
    case BuildHook => FinalizeBuild(st)
  }


  /** The accumulators and identifier lists hold only what the validators let through. */
  predicate Inv(st: ParserState) {
    && AllDigits(st.major) && NoLeadingZero(st.major)
    && AllDigits(st.minor) && NoLeadingZero(st.minor)
    && AllDigits(st.patch) && NoLeadingZero(st.patch)
    && AllIdentChars(st.releaseId)
    && AllIdentChars(st.buildId)
    && ValidPrereleases(st.release)
    && ValidBuilds(st.build)
  }

  lemma FinalizeReleaseKeepsInv(st: ParserState)
    ensures Inv(st) && FinalizeRelease(st).Success? ==> Inv(FinalizeRelease(st).value)
    ensures FinalizeRelease(st).Success? ==>
      FinalizeRelease(st).value.phase == st.phase && FinalizeRelease(st).value.prevPhase == st.prevPhase
  {
    if Inv(st) && FinalizeRelease(st).Success? {
      var r := FinalizeRelease(st).value;
      assert ValidPrerelease(Classify(st.releaseId));
      assert forall i :: 0 <= i < |r.release| ==> r.release[i] == (st.release + [Classify(st.releaseId)])[i];
    }
  }

  lemma FinalizeBuildKeepsInv(st: ParserState)
    ensures Inv(st) && FinalizeBuild(st).Success? ==> Inv(FinalizeBuild(st).value)
    ensures FinalizeBuild(st).Success? ==>
      FinalizeBuild(st).value.phase == st.phase && FinalizeBuild(st).value.prevPhase == st.prevPhase
  {
    FinalizeReleaseKeepsInv(st);
  }

  function TakeTransition(d: Dialect, st: ParserState, next: Phase, hook: Hook)
    : (r: Result<ParserState, ParseError>)
    ensures Inv(st) && r.Success? ==> Inv(r.value)
    ensures r.Success? ==> r.value.phase == next && r.value.prevPhase == st.phase
  {
    var moved := st.(prevPhase := st.phase, phase := next);
    FinalizeReleaseKeepsInv(st);
    FinalizeBuildKeepsInv(st);
    FinalizeReleaseKeepsInv(moved);
    FinalizeBuildKeepsInv(moved);
    match d
    case AsWritten => RunHook(hook, moved)
    case Corrected =>
      var st1 :- RunHook(hook, st);
      Success(st1.(prevPhase := st.phase, phase := next))
  }

  /** Validate a character that is not a trigger and append it to the phase's accumulator. */
  function AppendChar(st: ParserState, c: char): (r: Result<ParserState, ParseError>)
    requires TransitionFor(st.phase, c).None?
    ensures r.Success? ==> r.value == WithTarget(st, Target(st) + [c])
    ensures Inv(st) && r.Success? ==> Inv(r.value)
  {
    var err := if IsNormalPhase(st.phase) then NormalVersionValidator(Target(st), c)
               else ReleaseVersionValidator(c);
    if err.Some? then Failure(err.value)
    else
      var r := WithTarget(st, Target(st) + [c]);
      assert Target(r) == Target(st) + [c];
      Success(r)
  }

  /**
   * One character of `process_char`: take the phase's transition on a trigger,
   * otherwise validate the character and append it to the phase's accumulator.
   */
  function Step(d: Dialect, st: ParserState, c: char): (r: Result<ParserState, ParseError>)
    ensures Inv(st) && r.Success? ==> Inv(r.value)
  {
    match TransitionFor(st.phase, c)
    case Some(t) => TakeTransition(d, st, t.0, t.1)
    case None => AppendChar(st, c)
  }

  /** The characters each phase refuses, and what an accepted non-trigger character does. */
  lemma StepRejects(d: Dialect, st: ParserState, c: char)
    // a non-digit in major, minor or patch that is not a separator of the phase
    ensures IsNormalPhase(st.phase) && !IsDigit(c) && TransitionFor(st.phase, c).None? ==>
      Step(d, st, c) == Failure(InvalidCharacter(c))
    // a digit appended to an accumulator that is "0"
    ensures IsNormalPhase(st.phase) && IsDigit(c) && Target(st) == "0" ==>
      Step(d, st, c) == Failure(LeadingZero)
    // a character outside [0-9A-Za-z-] in a prerelease or build identifier
    ensures !IsNormalPhase(st.phase) && !IsIdentChar(c) && TransitionFor(st.phase, c).None? ==>
      Step(d, st, c) == Failure(InvalidCharacter(c))
    ensures st.phase == Build && c == '+' ==> Step(d, st, c) == Failure(InvalidCharacter('+'))
    // a character that is not a trigger extends the phase's accumulator and nothing else
    ensures Step(d, st, c).Success? && TransitionFor(st.phase, c).None? ==>
      Step(d, st, c).value == WithTarget(st, Target(st) + [c])
  {
  }

  /** The scan loop: feed every character of `s` to `Step`, stopping at the first error. */
  function Scan(d: Dialect, st: ParserState, s: string): (r: Result<ParserState, ParseError>)
    ensures Inv(st) && r.Success? ==> Inv(r.value)
    decreases |s|
  {
    if |s| == 0 then Success(st)
    else
      var st1 :- Step(d, st, s[0]);
      Scan(d, st1, s[1..])
  }

  /** After the scan, run the hook of the last identifier, which no trigger finalized. */
  function Finish(st: ParserState): (r: Result<ParserState, ParseError>)
    requires Inv(st)
    ensures r.Success? ==> Inv(r.value)
  {
    FinalizeReleaseKeepsInv(st);
    var st1 :- if st.phase == Release then FinalizeRelease(st) else Success(st);
    FinalizeBuildKeepsInv(st1);
    if st1.phase == Build then FinalizeBuild(st1) else Success(st1)
  }

  /** `std::stoi` on digit-only text: the empty text is an `invalid_argument`. */
  function Stoi(s: string): (r: Result<nat, ParseError>)
    requires AllDigits(s)
    ensures r.Success? <==> |s| > 0
    ensures r.Failure? ==> r.error == NotANumber
    ensures r.Success? && NoLeadingZero(s) ==> ToDecimal(r.value) == s
  {
    if |s| == 0 then Failure(NotANumber)
    else if NoLeadingZero(s) then
      ToDecimalOfValue(s);
      Success(Value(s))
    else
      Success(Value(s))
  }

  /** Convert the normal fields and assemble the result. */
  function Convert(st: ParserState): (r: Result<VersionData, ParseError>)
    requires Inv(st)
    ensures r.Failure? <==> |st.major| == 0 || |st.minor| == 0 || |st.patch| == 0
    ensures r.Failure? ==> r.error == NotANumber
    ensures r.Success? ==>
      && ToDecimal(r.value.major) == st.major
      && ToDecimal(r.value.minor) == st.minor
      && ToDecimal(r.value.patch) == st.patch
      && r.value.prereleaseIds == st.release
      && r.value.buildIds == st.build
  {
    var major :- Stoi(st.major);
    var minor :- Stoi(st.minor);
    var patch :- Stoi(st.patch);
    ToDecimalOfValue(st.major);
    ToDecimalOfValue(st.minor);
    ToDecimalOfValue(st.patch);
    Success(VersionData(major, minor, patch, st.release, st.build))
  }

  function ParseWith(d: Dialect, s: string): (r: Result<VersionData, ParseError>)
    ensures r.Success? ==> WellFormed(r.value)
  {
    var st :- Scan(d, Initial, s);
    var fin :- Finish(st);
    Convert(fin)
  }

  /** `Semver200_parser::parse` as the source writes it. */
  function Parse(s: string): (r: Result<VersionData, ParseError>)
    ensures r.Success? ==> WellFormed(r.value)
  {
    ParseWith(AsWritten, s)
  }

  /** The parser with the build hook reading the phase it was meant to read. */
  function ParseCorrected(s: string): (r: Result<VersionData, ParseError>)
    ensures r.Success? ==> WellFormed(r.value)
  {
    ParseWith(Corrected, s)
  }
}
