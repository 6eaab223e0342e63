/**
 * The identifier pending when '+' is read. With more than one build
 * identifier, the parser as written never validates it and never keeps it:
 * any run of identifier characters there, the empty one and a numeric one
 * with a leading zero included, is accepted and dropped. The corrected
 * parser validates it at the first '.' of the build part.
 */
module ParserPending {
  import opened Wrappers
  import opened Decimal
  import opened VersionModel
  import opened Semver200Parser
  import opened VersionRender
  import opened ParserScan
  import opened ParserRoundTrip
  import opened ParserExamples

  /** The rendering of `v` up to its prerelease part, then one more prerelease identifier `t`. */
  function PendingPrefix(v: VersionData, t: string): string {
    UpToPrerelease(v) + (if |v.prereleaseIds| == 0 then "-" else ".") + t
  }

  /** The rendering of `v` with one more prerelease identifier `t`, which may be empty or invalid. */
  function PendingText(v: VersionData, t: string): string
    requires |v.buildIds| > 0
  {
    PendingPrefix(v, t) + "+" + BuildText(v)
  }

  /** The state after the '+' that follows `PendingPrefix(v, t)`: `t` is still pending. */
  function PendingState(v: VersionData, t: string): ParserState {
    AfterNormal(v).(phase := Build, prevPhase := Release, release := v.prereleaseIds, releaseId := t)
  }

  /** `v` with `t` appended to its prerelease identifiers. */
  function WithPending(v: VersionData, t: string): VersionData {
    v.(prereleaseIds := v.prereleaseIds + [Classify(t)])
  }

  /** Joined text with its first element split off. */
  lemma {:induction false} SpliceCons(xs: seq<string>, sep: string)
    requires |xs| > 1
    ensures Splice(xs, sep) == xs[0] + sep + Splice(xs[1..], sep)
    decreases |xs|
  {
    var n := |xs|;
    if n > 2 {
      var init := xs[..n - 1];
      SpliceCons(init, sep);
      assert init[1..] == xs[1..][..n - 2];
      assert xs[1..][n - 2] == xs[n - 1];
    }
  }

  /** The state after the separator that opens the pending identifier: nothing pending yet. */
  function OpenPending(v: VersionData): ParserState {
    AfterNormal(v).(phase := Release, release := v.prereleaseIds, releaseId := [],
                    prevPhase := if |v.prereleaseIds| == 0 then Patch else Release)
  }

  /** The '-' after a version without prerelease part, or the '.' that finalizes its last prerelease identifier. */
  lemma ScanOpenPending(d: Dialect, v: VersionData)
    requires WellFormed(v)
    ensures Scan(d, AfterPrerelease(v), if |v.prereleaseIds| == 0 then "-" else ".") == Success(OpenPending(v))
  {
    var pre := v.prereleaseIds;
    var m := AfterPrerelease(v);
    if |pre| == 0 {
      ScanTrigger(d, m, '-', Release);
    } else {
      var k := |pre|;
      assert ValidPrerelease(pre[k - 1]);
      assert Classify(pre[k - 1].text) == pre[k - 1];
      assert pre[..k - 1] + [pre[k - 1]] == pre;
      ReleaseDot(d, m);
    }
  }

  /** Any run of identifier characters, then '+', leaves the run pending in both dialects. */
  lemma ScanPending(d: Dialect, v: VersionData, t: string)
    requires WellFormed(v) && AllIdentChars(t)
    ensures Scan(d, Initial, PendingPrefix(v, t) + "+") == Success(PendingState(v, t))
  {
    var m := AfterPrerelease(v);
    var sep := if |v.prereleaseIds| == 0 then "-" else ".";
    var m1 := OpenPending(v);
    var m2 := m1.(releaseId := t);
    assert Scan(d, Initial, UpToPrerelease(v)) == Success(m) by {
      ScanUpToPrerelease(d, v);
    }
    assert Scan(d, m, sep) == Success(m1) by {
      ScanOpenPending(d, v);
    }
    assert Scan(d, m1, t) == Success(m2) by {
      assert Target(m1) == [] && Accepted(m1, t);
      ScanFresh(d, m1, t);
    }
    assert Scan(d, Initial, PendingPrefix(v, t)) == Success(m2) by {
      ScanChain(d, Initial, UpToPrerelease(v), sep, t, m, m1, m2);
    }
    assert Scan(d, m2, "+") == Success(PendingState(v, t)) by {
      ScanTrigger(d, m2, '+', Build);
    }
    ScanThrough(d, Initial, PendingPrefix(v, t), "+", m2);
  }

  /** The state after the whole text, as written: the pending identifier is still pending. */
  function PendingEnd(v: VersionData, t: string): ParserState
    requires |v.buildIds| > 0
  {
    var bs := v.buildIds;
    PendingState(v, t).(build := bs[..|bs| - 1], buildId := bs[|bs| - 1], prevPhase := Build)
  }

  /** As written, the '.' of the build part never finalizes the pending identifier. */
  lemma ScanPendingBuilds(v: VersionData, t: string)
    requires WellFormed(v) && |v.buildIds| > 1
    ensures Scan(AsWritten, PendingState(v, t), BuildText(v)) == Success(PendingEnd(v, t))
  {
    var p := PendingState(v, t);
    var bs := v.buildIds;
    assert p.phase == Build && p.buildId == [] && !DotFlushes(AsWritten, p);
    ScanBuild(AsWritten, p, bs);
    assert p.build + bs[..|bs| - 1] == bs[..|bs| - 1];
  }

  lemma ScanPendingText(v: VersionData, t: string)
    requires WellFormed(v) && |v.buildIds| > 1 && AllIdentChars(t)
    ensures Scan(AsWritten, Initial, PendingText(v, t)) == Success(PendingEnd(v, t))
  {
    var p := PendingState(v, t);
    assert Scan(AsWritten, Initial, PendingPrefix(v, t) + "+") == Success(p) by {
      ScanPending(AsWritten, v, t);
    }
    assert Scan(AsWritten, p, BuildText(v)) == Success(PendingEnd(v, t)) by {
      ScanPendingBuilds(v, t);
    }
    ScanThrough(AsWritten, Initial, PendingPrefix(v, t) + "+", BuildText(v), p);
  }

  /** As written, the end-of-input hooks finalize the last build identifier and drop the pending one. */
  lemma FinishPendingEnd(v: VersionData, t: string)
    requires WellFormed(v) && |v.buildIds| > 1 && AllIdentChars(t)
    ensures Inv(PendingEnd(v, t))
    ensures Finish(PendingEnd(v, t)) == Success(PendingEnd(v, t).(build := v.buildIds, buildId := []))
  {
    var bs := v.buildIds;
    var n := |bs|;
    ScanPendingText(v, t);
    assert Inv(Initial);
    assert IsIdentifier(bs[n - 1]);
    assert bs[..n - 1] + [bs[n - 1]] == bs;
    FinishBuildOnly(PendingEnd(v, t));
  }

  /**
   * The parser as written accepts `v` followed by any pending identifier
   * made of identifier characters when `v` has more than one build
   * identifier, and gives back `v`: the pending identifier is neither
   * checked nor kept.
   */
  lemma ParseIgnoresPendingIdentifier(v: VersionData, t: string)
    requires WellFormed(v) && |v.buildIds| > 1 && AllIdentChars(t)
    ensures Parse(PendingText(v, t)) == Success(v)
  {
    var q := PendingEnd(v, t);
    ScanPendingText(v, t);
    FinishPendingEnd(v, t);
    ConvertNormal(v, q.(build := v.buildIds, buildId := []));
  }

  /** The joined prerelease texts of `WithPending(v, t)`. */
  lemma PrereleaseTextWithPending(v: VersionData, t: string)
    ensures PrereleaseText(WithPending(v, t))
         == (if |v.prereleaseIds| == 0 then t else PrereleaseText(v) + "." + t)
  {
    var ids := WithPending(v, t).prereleaseIds;
    if |v.prereleaseIds| > 0 {
      JoinedTextsSnoc(ids);
      assert ids[..|ids| - 1] == v.prereleaseIds;
    } else {
      assert Texts(ids) == [t];
    }
  }

  /** The rendering of `WithPending(v, t)` is `v` with the pending identifier `t`. */
  lemma RenderWithPending(v: VersionData, t: string)
    requires |v.buildIds| > 0
    ensures Render(WithPending(v, t)) == PendingText(v, t)
  {
    var w := WithPending(v, t);
    assert UpToPrerelease(w) == PendingPrefix(v, t) by {
      PrereleaseTextWithPending(v, t);
    }
    assert Render(w) == UpToPrerelease(w) + "+" + BuildText(v);
  }

  /** The error the corrected build hook gives for a pending identifier that is not valid. */
  function PendingError(t: string): ParseError {
    if |t| == 0 then EmptyIdentifier else NumericLeadingZero
  }

  /** The rendering with a pending identifier, cut at the first '.' of the build part. */
  lemma PendingTextAtBuildDot(v: VersionData, t: string)
    requires |v.buildIds| > 1
    ensures PendingText(v, t)
         == (PendingPrefix(v, t) + "+" + v.buildIds[0]) + ['.'] + Splice(v.buildIds[1..], ".")
  {
    SpliceCons(v.buildIds, ".");
  }

  /** The first build identifier after a pending identifier only fills the build accumulator. */
  lemma ScanPendingFirstBuild(d: Dialect, v: VersionData, t: string)
    requires WellFormed(v) && |v.buildIds| > 1 && AllIdentChars(t)
    ensures Scan(d, Initial, PendingPrefix(v, t) + "+" + v.buildIds[0])
         == Success(PendingState(v, t).(buildId := v.buildIds[0]))
  {
    var p := PendingState(v, t);
    var b := v.buildIds[0];
    assert Scan(d, Initial, PendingPrefix(v, t) + "+") == Success(p) by {
      ScanPending(d, v, t);
    }
    assert Scan(d, p, b) == Success(p.(buildId := b)) by {
      assert IsIdentifier(b);
      assert Target(p) == [] && Accepted(p, b);
      ScanFresh(d, p, b);
    }
    ScanThrough(d, Initial, PendingPrefix(v, t) + "+", b, p);
  }

  /**
   * The corrected parser rejects an invalid pending identifier at the first
   * '.' of the build part, with the release hook's error.
   */
  lemma CorrectedRejectsPendingIdentifier(v: VersionData, t: string)
    requires WellFormed(v) && |v.buildIds| > 1 && AllIdentChars(t) && !ValidPrerelease(Classify(t))
    ensures ParseCorrected(PendingText(v, t)) == Failure(PendingError(t))
  {
    var p1 := PendingState(v, t).(buildId := v.buildIds[0]);
    var a := PendingPrefix(v, t) + "+" + v.buildIds[0];
    assert Step(Corrected, p1, '.') == Failure(PendingError(t)) by {
      assert FinalizeRelease(p1) == Failure(PendingError(t));
    }
    PendingTextAtBuildDot(v, t);
    ScanPendingFirstBuild(Corrected, v, t);
    FailsAt(Corrected, PendingText(v, t), a, '.', Splice(v.buildIds[1..], "."), p1, PendingError(t));
  }

  /** The corrected parser keeps a valid pending identifier. */
  lemma CorrectedKeepsPendingIdentifier(v: VersionData, t: string)
    requires WellFormed(v) && |v.buildIds| > 0 && ValidPrerelease(Classify(t))
    ensures ParseCorrected(PendingText(v, t)) == Success(WithPending(v, t))
  {
    var w := WithPending(v, t);
    assert w.prereleaseIds[..|v.prereleaseIds|] == v.prereleaseIds;
    assert WellFormed(w);
    RenderWithPending(v, t);
    RoundTrip(Corrected, w);
  }

  /**
   * Both dialects on the same input: the parser as written gives back `v`
   * whatever the pending identifier; the corrected parser keeps it exactly
   * when it is a valid prerelease identifier and otherwise fails.
   */
  lemma PendingIdentifierDialects(v: VersionData, t: string)
    requires WellFormed(v) && |v.buildIds| > 1 && AllIdentChars(t)
    ensures Parse(PendingText(v, t)) == Success(v)
    ensures ParseCorrected(PendingText(v, t)).Success? <==> ValidPrerelease(Classify(t))
    ensures ParseCorrected(PendingText(v, t)).Success? ==> ParseCorrected(PendingText(v, t)).value == WithPending(v, t)
  {
    ParseIgnoresPendingIdentifier(v, t);
    if ValidPrerelease(Classify(t)) {
      CorrectedKeepsPendingIdentifier(v, t);
    } else {
      CorrectedRejectsPendingIdentifier(v, t);
    }
  }

  /** 1.0.0+b.c and 1.0.0-a+b.c: versions with two build identifiers. */
  function PlainWithBuilds(): VersionData {
    VersionData(1, 0, 0, [], ["b", "c"])
  }

  function AlphaWithBuilds(): VersionData {
    VersionData(1, 0, 0, [PrereleaseIdentifier("a", Alnum)], ["b", "c"])
  }

  lemma PlainWithBuildsFacts()
    ensures WellFormed(PlainWithBuilds())
    ensures PendingText(PlainWithBuilds(), "") == "1.0.0-+b.c"
  {
    var bs := PlainWithBuilds().buildIds;
    assert IsIdentifier(bs[0]) && IsIdentifier(bs[1]);
  }

  lemma AlphaWithBuildsFacts()
    ensures WellFormed(AlphaWithBuilds())
    ensures PendingText(AlphaWithBuilds(), "") == "1.0.0-a.+b.c"
  {
    var bs := AlphaWithBuilds().buildIds;
    assert IsIdentifier(bs[0]) && IsIdentifier(bs[1]);
    assert !IsDigit("a"[0]);
    assert ValidPrerelease(AlphaWithBuilds().prereleaseIds[0]);
  }

  /** "1.0.0-+b.c": an empty prerelease identifier, accepted as written and rejected when corrected. */
  lemma AcceptsEmptyPrerelease()
    ensures Parse("1.0.0-+b.c") == Success(VersionData(1, 0, 0, [], ["b", "c"]))
    ensures ParseCorrected("1.0.0-+b.c") == Failure(EmptyIdentifier)
  {
    PlainWithBuildsFacts();
    ParseIgnoresPendingIdentifier(PlainWithBuilds(), "");
    CorrectedRejectsPendingIdentifier(PlainWithBuilds(), "");
  }

  /** "1.0.0-a.+b.c": an empty prerelease identifier after "a", accepted as written and rejected when corrected. */
  lemma AcceptsEmptyLastPrerelease()
    ensures Parse("1.0.0-a.+b.c") == Success(VersionData(1, 0, 0, [PrereleaseIdentifier("a", Alnum)], ["b", "c"]))
    ensures ParseCorrected("1.0.0-a.+b.c") == Failure(EmptyIdentifier)
  {
    AlphaWithBuildsFacts();
    ParseIgnoresPendingIdentifier(AlphaWithBuilds(), "");
    CorrectedRejectsPendingIdentifier(AlphaWithBuilds(), "");
  }
}
