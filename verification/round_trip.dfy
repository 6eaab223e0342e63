/**
 * The parser against the renderer: parsing the rendering of a well-formed
 * version gives the version back, and (for the corrected parser) every
 * accepted string is the rendering of what it parses to.
 */
module ParserRoundTrip {
  import opened Wrappers
  import opened Decimal
  import opened VersionModel
  import opened Semver200Parser
  import opened VersionRender
  import opened ParserScan

  function NormalPart(v: VersionData): string {
    ToDecimal(v.major) + "." + ToDecimal(v.minor) + "." + ToDecimal(v.patch)
  }

  /** The state after the normal triple of `v`, in the patch phase. */
  function AfterNormal(v: VersionData): ParserState {
    Initial.(phase := Patch, prevPhase := Minor,
             major := ToDecimal(v.major), minor := ToDecimal(v.minor), patch := ToDecimal(v.patch))
  }

  /** A canonical field followed by its phase's '.' trigger. */
  lemma ScanFieldDot(d: Dialect, st: ParserState, t: string, next: Phase)
    requires IsNormalPhase(st.phase) && Target(st) == []
    requires |t| > 0 && AllDigits(t) && NoLeadingZero(t)
    requires TransitionFor(st.phase, '.') == Some((next, NoHook))
    ensures Scan(d, st, t + ".") == Success(WithTarget(st, t).(phase := next, prevPhase := st.phase))
  {
    var m := WithTarget(st, t);
    var m1 := m.(phase := next, prevPhase := st.phase);
    assert Scan(d, st, t) == Success(m) by {
      assert Target(st) + t == t;
      ScanAccumulates(d, st, t);
    }
    assert Scan(d, m, ".") == Success(m1) by {
      ScanTrigger(d, m, '.', next);
    }
    ScanThrough(d, st, t, ".", m);
  }

  function AfterMajor(v: VersionData): ParserState {
    Initial.(major := ToDecimal(v.major), phase := Minor, prevPhase := Major)
  }

  function AfterMinor(v: VersionData): ParserState {
    AfterMajor(v).(minor := ToDecimal(v.minor), phase := Patch, prevPhase := Minor)
  }

  lemma ScanMajor(d: Dialect, v: VersionData)
    ensures Scan(d, Initial, ToDecimal(v.major) + ".") == Success(AfterMajor(v))
  {
    ScanFieldDot(d, Initial, ToDecimal(v.major), Minor);
  }

  lemma ScanMinor(d: Dialect, v: VersionData)
    ensures Scan(d, AfterMajor(v), ToDecimal(v.minor) + ".") == Success(AfterMinor(v))
  {
    ScanFieldDot(d, AfterMajor(v), ToDecimal(v.minor), Patch);
  }

  lemma ScanPatch(d: Dialect, v: VersionData)
    ensures Scan(d, AfterMinor(v), ToDecimal(v.patch)) == Success(AfterNormal(v))
  {
    var m := AfterMinor(v);
    var t := ToDecimal(v.patch);
    assert Target(m) == [] && Accepted(m, t);
    ScanFresh(d, m, t);
    assert WithTarget(m, t) == AfterNormal(v);
  }

  lemma NormalPartPieces(v: VersionData)
    ensures NormalPart(v) == ToDecimal(v.major) + "." + (ToDecimal(v.minor) + ".") + ToDecimal(v.patch)
  {
  }

  lemma ScanNormal(d: Dialect, v: VersionData)
    ensures Scan(d, Initial, NormalPart(v)) == Success(AfterNormal(v))
  {
    NormalPartPieces(v);
    ScanMajor(d, v);
    ScanMinor(d, v);
    ScanPatch(d, v);
    ScanChain(d, Initial, ToDecimal(v.major) + ".", ToDecimal(v.minor) + ".", ToDecimal(v.patch),
              AfterMajor(v), AfterMinor(v), AfterNormal(v));
  }

  /** Converting a finished state whose accumulators are the texts of `v`'s triple. */
  lemma ConvertNormal(v: VersionData, st: ParserState)
    requires Inv(st)
    requires st.major == ToDecimal(v.major) && st.minor == ToDecimal(v.minor) && st.patch == ToDecimal(v.patch)
    requires st.release == v.prereleaseIds && st.build == v.buildIds
    ensures Convert(st) == Success(v)
  {
  }

  /** The rendering of `v` up to and including its prerelease part. */
  function UpToPrerelease(v: VersionData): string {
    NormalPart(v) + (if |v.prereleaseIds| > 0 then "-" + PrereleaseText(v) else "")
  }

  /** The state after `UpToPrerelease(v)`. */
  function AfterPrerelease(v: VersionData): ParserState {
    var pre := v.prereleaseIds;
    if |pre| == 0 then AfterNormal(v)
    else AfterNormal(v).(phase := Release, release := pre[..|pre| - 1], releaseId := pre[|pre| - 1].text,
                         prevPhase := if |pre| > 1 then Release else Patch)
  }

  /** The state after the '+' that opens `v`'s build part. */
  function BuildStart(v: VersionData): ParserState {
    AfterPrerelease(v).(phase := Build, prevPhase := if |v.prereleaseIds| == 0 then Patch else Release)
  }

  /** The state after the whole rendering of `v`, before the end-of-input hooks. */
  function AfterRender(d: Dialect, v: VersionData): ParserState
    requires WellFormed(v)
  {
    if |v.buildIds| == 0 then AfterPrerelease(v) else AfterBuildIds(d, BuildStart(v), v.buildIds)
  }

  /** The prerelease part scanned from the state after the '-'. */
  lemma ScanPrereleasePart(d: Dialect, v: VersionData)
    requires WellFormed(v) && |v.prereleaseIds| > 0
    ensures Scan(d, AfterNormal(v).(phase := Release, prevPhase := Patch), PrereleaseText(v)) == Success(AfterPrerelease(v))
  {
    var pre := v.prereleaseIds;
    var s4 := AfterNormal(v).(phase := Release, prevPhase := Patch);
    ScanPrerelease(d, s4, pre);
    assert [] + pre[..|pre| - 1] == pre[..|pre| - 1];
    assert AfterPrereleaseIds(s4, pre) == AfterPrerelease(v);
  }

  lemma ScanUpToPrerelease(d: Dialect, v: VersionData)
    requires WellFormed(v)
    ensures Scan(d, Initial, UpToPrerelease(v)) == Success(AfterPrerelease(v))
  {
    var nv := NormalPart(v);
    var s3 := AfterNormal(v);
    ScanNormal(d, v);
    if |v.prereleaseIds| == 0 {
      assert UpToPrerelease(v) == nv;
    } else {
      var s4 := s3.(phase := Release, prevPhase := Patch);
      assert UpToPrerelease(v) == nv + "-" + PrereleaseText(v);
      ScanPrereleasePart(d, v);
      ScanTrigger(d, s3, '-', Release);
      ScanChain(d, Initial, nv, "-", PrereleaseText(v), s3, s4, AfterPrerelease(v));
    }
  }

  lemma ScanBuildPart(d: Dialect, v: VersionData)
    requires WellFormed(v) && |v.buildIds| > 0
    ensures Scan(d, BuildStart(v), BuildText(v)) == Success(AfterRender(d, v))
  {
    var pre := v.prereleaseIds;
    assert |pre| > 0 ==> ValidPrerelease(pre[|pre| - 1]);
    ScanBuild(d, BuildStart(v), v.buildIds);
  }

  lemma ScanRenderWithBuild(d: Dialect, v: VersionData)
    requires WellFormed(v) && |v.buildIds| > 0
    ensures Scan(d, Initial, UpToPrerelease(v) + "+" + BuildText(v)) == Success(AfterRender(d, v))
  {
    var s5 := AfterPrerelease(v);
    assert Scan(d, Initial, UpToPrerelease(v)) == Success(s5) by {
      ScanUpToPrerelease(d, v);
    }
    assert Scan(d, s5, "+") == Success(BuildStart(v)) by {
      assert s5.phase == (if |v.prereleaseIds| == 0 then Patch else Release);
      assert BuildStart(v) == s5.(phase := Build, prevPhase := s5.phase);
      ScanTrigger(d, s5, '+', Build);
    }
    assert Scan(d, BuildStart(v), BuildText(v)) == Success(AfterRender(d, v)) by {
      ScanBuildPart(d, v);
    }
    ScanChain(d, Initial, UpToPrerelease(v), "+", BuildText(v), s5, BuildStart(v), AfterRender(d, v));
  }

  lemma ScanRender(d: Dialect, v: VersionData)
    requires WellFormed(v)
    ensures Scan(d, Initial, Render(v)) == Success(AfterRender(d, v))
  {
    if |v.buildIds| == 0 {
      assert Render(v) == UpToPrerelease(v);
      ScanUpToPrerelease(d, v);
    } else {
      assert Render(v) == UpToPrerelease(v) + "+" + BuildText(v);
      ScanRenderWithBuild(d, v);
    }
  }

  /**
   * When the parser gives back every identifier of `v`: always in the
   * corrected dialect; as written, only when `v` has no prerelease part or
   * at most one build identifier.
   */
  predicate Recoverable(d: Dialect, v: VersionData) {
    d == Corrected || |v.prereleaseIds| == 0 || |v.buildIds| <= 1
  }

  lemma FinishWithoutBuild(d: Dialect, v: VersionData)
    requires WellFormed(v) && |v.buildIds| == 0
    ensures Finish(AfterRender(d, v)).Success?
    ensures Finish(AfterRender(d, v)).value.release == v.prereleaseIds
    ensures Finish(AfterRender(d, v)).value.build == []
    ensures Finish(AfterRender(d, v)).value.(release := [], prevPhase := Major, phase := Major)
         == AfterNormal(v).(prevPhase := Major, phase := Major)
  {
    var pre := v.prereleaseIds;
    if |pre| > 0 {
      assert ValidPrerelease(pre[|pre| - 1]);
      assert pre[..|pre| - 1] + [pre[|pre| - 1]] == pre;
    }
  }

  /** The end-of-input build hook when the previous phase is not the release phase. */
  lemma FinishBuildOnly(st: ParserState)
    requires Inv(st) && st.phase == Build && st.prevPhase != Release && IsIdentifier(st.buildId)
    ensures Finish(st) == Success(st.(build := st.build + [st.buildId], buildId := []))
  {
  }

  /** The end-of-input build hook right after the '+': the pending prerelease identifier is finalized too. */
  lemma FinishBuildAndRelease(st: ParserState)
    requires Inv(st) && st.phase == Build && st.prevPhase == Release && IsIdentifier(st.buildId)
    requires ValidPrerelease(Classify(st.releaseId))
    ensures Finish(st) == Success(FlushPending(st).(build := st.build + [st.buildId], buildId := []))
  {
    assert FinalizeRelease(st) == Success(FlushPending(st));
  }

  /** The finished state of the rendering of `v`, in the build phase: all identifiers finalized. */
  function Finished(v: VersionData, prev: Phase): ParserState {
    AfterNormal(v).(phase := Build, prevPhase := prev, release := v.prereleaseIds, build := v.buildIds)
  }

  lemma FinishWithBuild(d: Dialect, v: VersionData)
    requires WellFormed(v) && |v.buildIds| > 0 && Recoverable(d, v)
    ensures Inv(AfterRender(d, v))
    ensures Finish(AfterRender(d, v)) == Success(Finished(v, AfterRender(d, v).prevPhase))
  {
    AfterRenderInv(d, v);
    if |v.prereleaseIds| == 0 {
      FinishNoPrerelease(d, v);
    } else if |v.buildIds| == 1 {
      FinishOneBuild(d, v);
    } else {
      FinishCorrectedBuilds(v);
    }
  }

  lemma AfterRenderInv(d: Dialect, v: VersionData)
    requires WellFormed(v)
    ensures Inv(AfterRender(d, v))
  {
    ScanRender(d, v);
    assert Inv(Initial);
  }

  /** The finalized build identifiers of the rendering of `v` are `v`'s. */
  lemma AfterRenderBuilds(d: Dialect, v: VersionData)
    requires WellFormed(v) && |v.buildIds| > 0
    ensures IsIdentifier(AfterRender(d, v).buildId)
    ensures AfterRender(d, v).build + [AfterRender(d, v).buildId] == v.buildIds
  {
    var bs := v.buildIds;
    var n := |bs|;
    assert IsIdentifier(bs[n - 1]);
    assert bs[..n - 1] + [bs[n - 1]] == bs;
  }

  lemma FinishNoPrerelease(d: Dialect, v: VersionData)
    requires WellFormed(v) && |v.buildIds| > 0 && |v.prereleaseIds| == 0
    requires Inv(AfterRender(d, v))
    ensures Finish(AfterRender(d, v)) == Success(Finished(v, AfterRender(d, v).prevPhase))
  {
    AfterRenderBuilds(d, v);
    FinishBuildOnly(AfterRender(d, v));
  }

  lemma FinishOneBuild(d: Dialect, v: VersionData)
    requires WellFormed(v) && |v.buildIds| == 1 && |v.prereleaseIds| > 0
    requires Inv(AfterRender(d, v))
    ensures Finish(AfterRender(d, v)) == Success(Finished(v, AfterRender(d, v).prevPhase))
  {
    var st := AfterRender(d, v);
    var pre := v.prereleaseIds;
    var k := |pre|;
    AfterRenderBuilds(d, v);
    assert ValidPrerelease(pre[k - 1]);
    assert Classify(pre[k - 1].text) == pre[k - 1];
    assert pre[..k - 1] + [pre[k - 1]] == pre;
    assert st.prevPhase == Release && st.release == pre[..k - 1] && st.releaseId == pre[k - 1].text;
    FinishBuildAndRelease(st);
  }

  lemma FinishCorrectedBuilds(v: VersionData)
    requires WellFormed(v) && |v.buildIds| > 1 && |v.prereleaseIds| > 0
    requires Inv(AfterRender(Corrected, v))
    ensures Finish(AfterRender(Corrected, v)) == Success(Finished(v, AfterRender(Corrected, v).prevPhase))
  {
    var st := AfterRender(Corrected, v);
    var pre := v.prereleaseIds;
    var k := |pre|;
    AfterRenderBuilds(Corrected, v);
    assert ValidPrerelease(pre[k - 1]);
    assert Classify(pre[k - 1].text) == pre[k - 1];
    assert pre[..k - 1] + [pre[k - 1]] == pre;
    assert st.prevPhase == Build && st.release == pre;
    FinishBuildOnly(st);
  }

  /** Parsing the rendering of a well-formed version gives the version back. */
  lemma RoundTrip(d: Dialect, v: VersionData)
    requires WellFormed(v) && Recoverable(d, v)
    ensures ParseWith(d, Render(v)) == Success(v)
  {
    ScanRender(d, v);
    var st := AfterRender(d, v);
    assert Inv(Initial);
    assert Inv(st);
    if |v.buildIds| == 0 {
      FinishWithoutBuild(d, v);
    } else {
      FinishWithBuild(d, v);
    }
    ConvertNormal(v, Finish(st).value);
  }

  lemma FinishDropsLast(v: VersionData)
    requires WellFormed(v) && |v.prereleaseIds| > 0 && |v.buildIds| > 1
    ensures Finish(AfterRender(AsWritten, v)).Success?
    ensures Finish(AfterRender(AsWritten, v)).value.release == v.prereleaseIds[..|v.prereleaseIds| - 1]
    ensures Finish(AfterRender(AsWritten, v)).value.build == v.buildIds
    ensures Finish(AfterRender(AsWritten, v)).value.(release := [], build := [], releaseId := [], prevPhase := Major, phase := Major)
         == AfterNormal(v).(prevPhase := Major, phase := Major)
  {
    var bs := v.buildIds;
    assert IsIdentifier(bs[|bs| - 1]);
    assert bs[..|bs| - 1] + [bs[|bs| - 1]] == bs;
  }

  /**
   * The parser as written drops the last prerelease identifier of a version
   * with more than one build identifier: the identifier is pending when the
   * '+' is read, and no build hook finalizes it.
   */
  lemma ParseDropsLastPrerelease(v: VersionData)
    requires WellFormed(v) && |v.prereleaseIds| > 0 && |v.buildIds| > 1
    ensures Parse(Render(v)) == Success(v.(prereleaseIds := v.prereleaseIds[..|v.prereleaseIds| - 1]))
  {
    var w := v.(prereleaseIds := v.prereleaseIds[..|v.prereleaseIds| - 1]);
    ScanRender(AsWritten, v);
    var st := AfterRender(AsWritten, v);
    assert Inv(Initial);
    assert Inv(st);
    FinishDropsLast(v);
    ConvertNormal(w, Finish(st).value);
  }

  /** `operator<<` loses nothing: two well-formed versions print the same text only when they are equal. */
  lemma RenderInjective(v: VersionData, w: VersionData)
    requires WellFormed(v) && WellFormed(w)
    ensures Render(v) == Render(w) <==> v == w
  {
    RoundTrip(Corrected, v);
    RoundTrip(Corrected, w);
  }
}
