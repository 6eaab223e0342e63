/**
 * Every string the corrected parser accepts is the rendering of what it
 * parses to, and so is every string the parser as written accepts with at
 * most one build identifier. The proof tracks, for each state of the scan,
 * the text consumed so far as a function of the state.
 */
module ParserReverse {
  import opened Wrappers
  import opened Decimal
  import opened VersionModel
  import opened Semver200Parser
  import opened VersionRender
  import opened ParserScan

  lemma SpliceSnoc(xs: seq<string>, y: string, sep: string)
    ensures Splice(xs + [y], sep) == if |xs| == 0 then y else Splice(xs, sep) + sep + y
  {
    assert (xs + [y])[..|xs|] == xs;
  }

  /** Extending the last piece extends the joined text. */
  lemma SpliceExtendLast(xs: seq<string>, y: string, t: string, sep: string)
    ensures Splice(xs + [y + t], sep) == Splice(xs + [y], sep) + t
  {
    SpliceSnoc(xs, y + t, sep);
    SpliceSnoc(xs, y, sep);
  }

  /** Closing the last piece with a separator and opening an empty one. */
  lemma SpliceOpenNext(xs: seq<string>, y: string, sep: string)
    ensures Splice(xs + [y] + [[]], sep) == Splice(xs + [y], sep) + sep
  {
    SpliceSnoc(xs + [y], [], sep);
  }

  lemma TextsSnoc(r: seq<PrereleaseIdentifier>, id: string)
    ensures Texts(r + [Classify(id)]) == Texts(r) + [id]
  {
  }

  function NormalText(st: ParserState): string {
    st.major + "." + st.minor + "." + st.patch
  }

  /** The prerelease part of the text consumed in the build phase. */
  function PrePart(st: ParserState): string {
    if st.prevPhase == Release then "-" + Splice(Texts(st.release) + [st.releaseId], ".")
    else if |st.release| > 0 then "-" + Splice(Texts(st.release), ".")
    else ""
  }

  /** The text a scan from `Initial` has consumed to reach `st`. */
  function Consumed(st: ParserState): string {
    match st.phase
    case Major => st.major
    case Minor => st.major + "." + st.minor
    case Patch => NormalText(st)
    case Release => NormalText(st) + "-" + Splice(Texts(st.release) + [st.releaseId], ".")
    case Build => NormalText(st) + PrePart(st) + "+" + Splice(st.build + [st.buildId], ".")
  }

  /** Which parts of the state are still empty in each phase of the corrected scan. */
  predicate Shape(st: ParserState) {
    match st.phase
    case Major =>
      st.minor == [] && st.patch == [] && st.releaseId == [] && st.buildId == [] && st.release == [] && st.build == []
    case Minor =>
      st.patch == [] && st.releaseId == [] && st.buildId == [] && st.release == [] && st.build == []
    case Patch =>
      st.releaseId == [] && st.buildId == [] && st.release == [] && st.build == []
    case Release =>
      st.buildId == [] && st.build == []
    case Build =>
      (st.prevPhase != Release ==> st.releaseId == [])
  }

  /** A character that is not a trigger extends the consumed text by itself. */
  lemma AppendConsumed(st: ParserState, c: char)
    requires Shape(st) && TransitionFor(st.phase, c).None?
    ensures Shape(WithTarget(st, Target(st) + [c]))
    ensures Consumed(WithTarget(st, Target(st) + [c])) == Consumed(st) + [c]
  {
    var st1 := WithTarget(st, Target(st) + [c]);
    match st.phase
    case Major =>
    case Minor =>
    case Patch =>
    case Release =>
      SpliceExtendLast(Texts(st.release), st.releaseId, [c], ".");
    case Build =>
      SpliceExtendLast(st.build, st.buildId, [c], ".");
      assert PrePart(st1) == PrePart(st);
  }

  lemma NormalDotConsumed(st: ParserState, next: Phase)
    requires Shape(st) && (st.phase, next) in {(Major, Minor), (Minor, Patch)}
    ensures Shape(st.(prevPhase := st.phase, phase := next))
    ensures Consumed(st.(prevPhase := st.phase, phase := next)) == Consumed(st) + "."
  {
  }

  lemma PatchTriggerConsumed(st: ParserState, c: char, next: Phase)
    requires Shape(st) && st.phase == Patch && (c, next) in {('-', Release), ('+', Build)}
    ensures Shape(st.(prevPhase := Patch, phase := next))
    ensures Consumed(st.(prevPhase := Patch, phase := next)) == Consumed(st) + [c]
  {
    var none: seq<string> := [];
    assert none + [[]] == [[]];
  }

  lemma ReleaseDotConsumed(st: ParserState)
    requires Shape(st) && st.phase == Release && FinalizeRelease(st).Success?
    ensures Shape(FinalizeRelease(st).value.(prevPhase := Release))
    ensures Consumed(FinalizeRelease(st).value.(prevPhase := Release)) == Consumed(st) + "."
  {
    TextsSnoc(st.release, st.releaseId);
    SpliceOpenNext(Texts(st.release), st.releaseId, ".");
  }

  lemma ReleasePlusConsumed(st: ParserState)
    requires Shape(st) && st.phase == Release
    ensures Shape(st.(prevPhase := Release, phase := Build))
    ensures Consumed(st.(prevPhase := Release, phase := Build)) == Consumed(st) + "+"
  {
    var none: seq<string> := [];
    assert none + [[]] == [[]];
  }

  lemma BuildDotConsumed(st: ParserState)
    requires Shape(st) && st.phase == Build && FinalizeBuild(st).Success?
    ensures Shape(FinalizeBuild(st).value.(prevPhase := Build))
    ensures Consumed(FinalizeBuild(st).value.(prevPhase := Build)) == Consumed(st) + "."
  {
    var st1 := FinalizeBuild(st).value.(prevPhase := Build);
    SpliceOpenNext(st.build, st.buildId, ".");
    if st.prevPhase == Release {
      TextsSnoc(st.release, st.releaseId);
    }
    assert PrePart(st1) == PrePart(st);
  }

  /** A trigger of the corrected scan ends one piece of text with the trigger character. */
  lemma TriggerConsumed(st: ParserState, c: char, next: Phase, hook: Hook)
    requires Shape(st) && TransitionFor(st.phase, c) == Some((next, hook))
    requires TakeTransition(Corrected, st, next, hook).Success?
    ensures Shape(TakeTransition(Corrected, st, next, hook).value)
    ensures Consumed(TakeTransition(Corrected, st, next, hook).value) == Consumed(st) + [c]
  {
    var r := TakeTransition(Corrected, st, next, hook);
    match st.phase
    case Major =>
      assert r == Success(st.(prevPhase := Major, phase := next));
      NormalDotConsumed(st, next);
    case Minor =>
      assert r == Success(st.(prevPhase := Minor, phase := next));
      NormalDotConsumed(st, next);
    case Patch =>
      assert r == Success(st.(prevPhase := Patch, phase := next));
      PatchTriggerConsumed(st, c, next);
    case Release =>
      if c == '.' {
        assert r == Success(FinalizeRelease(st).value.(prevPhase := Release));
        ReleaseDotConsumed(st);
      } else {
        assert r == Success(st.(prevPhase := Release, phase := Build));
        ReleasePlusConsumed(st);
      }
    case Build =>
      assert r == Success(FinalizeBuild(st).value.(prevPhase := Build));
      BuildDotConsumed(st);
  }

  lemma StepConsumed(st: ParserState, c: char)
    requires Shape(st) && Step(Corrected, st, c).Success?
    ensures Shape(Step(Corrected, st, c).value)
    ensures Consumed(Step(Corrected, st, c).value) == Consumed(st) + [c]
  {
    match TransitionFor(st.phase, c)
    case Some(t) => TriggerConsumed(st, c, t.0, t.1);
    case None => AppendConsumed(st, c);
  }

  lemma ConsSplit(a: string, s: string)
    requires |s| > 0
    ensures a + [s[0]] + s[1..] == a + s
  {
  }

  /** The corrected scan consumes its input piece by piece into the state. */
  lemma {:induction false} ScanConsumed(st: ParserState, s: string)
    requires Shape(st) && Scan(Corrected, st, s).Success?
    ensures Shape(Scan(Corrected, st, s).value)
    ensures Consumed(Scan(Corrected, st, s).value) == Consumed(st) + s
    decreases |s|
  {
    if |s| == 0 {
      assert Consumed(st) + s == Consumed(st);
    } else {
      var r := Step(Corrected, st, s[0]);
      assert r.Success? && Scan(Corrected, st, s) == Scan(Corrected, r.value, s[1..]);
      StepConsumed(st, s[0]);
      ScanConsumed(r.value, s[1..]);
      ConsSplit(Consumed(st), s);
    }
  }

  /** The fields of `v` are the texts the scan left in `st`. */
  predicate ConvertedFrom(v: VersionData, st: ParserState) {
    && ToDecimal(v.major) == st.major
    && ToDecimal(v.minor) == st.minor
    && ToDecimal(v.patch) == st.patch
  }

  lemma RenderNoExtras(v: VersionData, st: ParserState)
    requires ConvertedFrom(v, st) && v.prereleaseIds == [] && v.buildIds == []
    ensures Render(v) == NormalText(st)
  {
  }

  lemma RenderPrerelease(v: VersionData, st: ParserState)
    requires ConvertedFrom(v, st) && |v.prereleaseIds| > 0 && v.buildIds == []
    ensures Render(v) == NormalText(st) + "-" + PrereleaseText(v)
  {
  }

  lemma RenderBuild(v: VersionData, st: ParserState)
    requires ConvertedFrom(v, st) && |v.buildIds| > 0
    ensures Render(v) == NormalText(st) + (if |v.prereleaseIds| > 0 then "-" + PrereleaseText(v) else "") + "+" + BuildText(v)
  {
  }

  /** The end-of-input hooks and the conversion turn the consumed text into a rendering. */
  lemma FinishConsumed(st: ParserState)
    requires Shape(st) && Inv(st)
    requires Finish(st).Success? && Convert(Finish(st).value).Success?
    ensures Render(Convert(Finish(st).value).value) == Consumed(st)
  {
    var f := Finish(st).value;
    var v := Convert(f).value;
    match st.phase
    case Major =>
      assert false;
    case Minor =>
      assert false;
    case Patch =>
      RenderNoExtras(v, st);
    case Release =>
      TextsSnoc(st.release, st.releaseId);
      RenderPrerelease(v, st);
    case Build =>
      if st.prevPhase == Release {
        TextsSnoc(st.release, st.releaseId);
      }
      RenderBuild(v, st);
  }

  /** Every string the corrected parser accepts is the rendering of its result. */
  lemma RenderOfParseCorrected(s: string)
    requires ParseCorrected(s).Success?
    ensures Render(ParseCorrected(s).value) == s
  {
    assert Shape(Initial) && Inv(Initial) && Consumed(Initial) == [];
    var st := Scan(Corrected, Initial, s).value;
    ScanConsumed(Initial, s);
    FinishConsumed(st);
  }

  /** The dialects differ only on a '.' in the build part. */
  lemma StepAgrees(st: ParserState, c: char)
    requires !(st.phase == Build && c == '.')
    ensures Step(AsWritten, st, c) == Step(Corrected, st, c)
  {
  }

  /** Build identifiers are only ever appended. */
  lemma StepKeepsBuilds(d: Dialect, st: ParserState, c: char)
    requires Step(d, st, c).Success?
    ensures |Step(d, st, c).value.build| >= |st.build|
    ensures st.phase == Build && c == '.' ==> |Step(d, st, c).value.build| > |st.build|
    ensures st.phase != Build && st.build == [] && Step(d, st, c).value.phase != Build ==>
      Step(d, st, c).value.build == []
  {
  }

  /** States outside the build phase hold no build identifiers. */
  predicate BuildsInBuildPhase(st: ParserState) {
    st.phase != Build ==> st.build == []
  }

  lemma {:induction false} ScanKeepsBuilds(d: Dialect, st: ParserState, s: string)
    requires Scan(d, st, s).Success?
    ensures |Scan(d, st, s).value.build| >= |st.build|
    ensures BuildsInBuildPhase(st) ==> BuildsInBuildPhase(Scan(d, st, s).value)
    decreases |s|
  {
    if |s| > 0 {
      var r := Step(d, st, s[0]);
      assert r.Success? && Scan(d, st, s) == Scan(d, r.value, s[1..]);
      StepKeepsBuilds(d, st, s[0]);
      ScanKeepsBuilds(d, r.value, s[1..]);
    }
  }

  /** A scan as written that finalized no build identifier is the corrected scan. */
  lemma {:induction false} ScanAgrees(st: ParserState, s: string)
    requires Scan(AsWritten, st, s).Success?
    requires |Scan(AsWritten, st, s).value.build| == |st.build|
    ensures Scan(Corrected, st, s) == Scan(AsWritten, st, s)
    decreases |s|
  {
    if |s| > 0 {
      var r := Step(AsWritten, st, s[0]);
      assert r.Success? && Scan(AsWritten, st, s) == Scan(AsWritten, r.value, s[1..]);
      StepKeepsBuilds(AsWritten, st, s[0]);
      ScanKeepsBuilds(AsWritten, r.value, s[1..]);
      StepAgrees(st, s[0]);
      ScanAgrees(r.value, s[1..]);
    }
  }

  /** Text in which no '.' follows a '+': the build hook never fires on it. */
  predicate NoDotAfterPlus(s: string) {
    forall i, j :: 0 <= i < j < |s| && s[i] == '+' ==> s[j] != '.'
  }

  /** Only '+' leads from another phase into the build phase. */
  lemma StepEntersBuild(d: Dialect, st: ParserState, c: char)
    requires Step(d, st, c).Success? && st.phase != Build
    ensures Step(d, st, c).value.phase == Build ==> c == '+'
  {
  }

  /** Both dialects scan alike as long as the build hook is never reached. */
  lemma {:induction false} ScanAgreesWithoutBuildDot(st: ParserState, s: string)
    requires st.phase == Build ==> forall j :: 0 <= j < |s| ==> s[j] != '.'
    requires NoDotAfterPlus(s)
    ensures Scan(AsWritten, st, s) == Scan(Corrected, st, s)
    decreases |s|
  {
    if |s| > 0 {
      StepAgrees(st, s[0]);
      var r := Step(AsWritten, st, s[0]);
      if r.Success? {
        var rest := s[1..];
        assert NoDotAfterPlus(rest) by {
          forall i, j | 0 <= i < j < |rest| && rest[i] == '+'
            ensures rest[j] != '.'
          {
            assert s[i + 1] == '+' && rest[j] == s[j + 1];
          }
        }
        assert r.value.phase == Build ==> forall j :: 0 <= j < |rest| ==> rest[j] != '.' by {
          if r.value.phase == Build && st.phase != Build {
            StepEntersBuild(AsWritten, st, s[0]);
            forall j | 0 <= j < |rest| ensures rest[j] != '.' {
              assert rest[j] == s[j + 1];
            }
          } else if r.value.phase == Build {
            forall j | 0 <= j < |rest| ensures rest[j] != '.' {
              assert rest[j] == s[j + 1];
            }
          }
        }
        ScanAgreesWithoutBuildDot(r.value, rest);
      }
    }
  }

  /** On text in which no '.' follows a '+' the parser as written is the corrected parser. */
  lemma DialectsAgree(s: string)
    requires NoDotAfterPlus(s)
    ensures Parse(s) == ParseCorrected(s)
  {
    ScanAgreesWithoutBuildDot(Initial, s);
  }

  /**
   * With at most one build identifier the parser as written behaves as the
   * corrected one, so the strings it accepts are renderings of their results.
   */
  lemma RenderOfParse(s: string)
    requires Parse(s).Success? && |Parse(s).value.buildIds| <= 1
    ensures ParseCorrected(s) == Parse(s)
    ensures Render(Parse(s).value) == s
  {
    var m := Scan(AsWritten, Initial, s).value;
    ScanKeepsBuilds(AsWritten, Initial, s);
    assert |m.build| == 0;
    ScanAgrees(Initial, s);
    RenderOfParseCorrected(s);
  }
}
