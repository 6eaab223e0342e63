/**
 * Inputs from the parser's test suite, and the inputs that show the lost
 * prerelease identifier of the parser as written.
 */
module ParserExamples {
  import opened Wrappers
  import opened Decimal
  import opened VersionModel
  import opened Semver200Parser
  import opened VersionRender
  import opened ParserScan
  import opened ParserRoundTrip

  /** A parse stops with the error of the first character its state refuses. */
  lemma FailsAt(d: Dialect, s: string, a: string, c: char, b: string, m: ParserState, e: ParseError)
    requires s == a + [c] + b
    requires Scan(d, Initial, a) == Success(m) && Step(d, m, c) == Failure(e)
    ensures ParseWith(d, s) == Failure(e)
  {
    assert s == a + ([c] + b);
    ScanThrough(d, Initial, a, [c] + b, m);
    assert ([c] + b)[0] == c;
  }

  /** A scan that ends in a normal phase with an empty field fails in `stoi`. */
  lemma FailsInConvert(d: Dialect, s: string, m: ParserState)
    requires Scan(d, Initial, s) == Success(m) && IsNormalPhase(m.phase)
    requires |m.major| == 0 || |m.minor| == 0 || |m.patch| == 0
    ensures ParseWith(d, s) == Failure(NotANumber)
  {
    assert Inv(Initial);
  }

  lemma RejectsLeadingZero(d: Dialect)
    ensures ParseWith(d, "01.0.0") == Failure(LeadingZero)
  {
    var m := Initial.(major := "0");
    assert "01.0.0" == "0" + ['1'] + ".0.0";
    ScanFresh(d, Initial, "0");
    StepRejects(d, m, '1');
    FailsAt(d, "01.0.0", "0", '1', ".0.0", m, LeadingZero);
  }

  lemma RejectsLeadingDash(d: Dialect)
    ensures ParseWith(d, "-1.0.0") == Failure(InvalidCharacter('-'))
  {
    assert "-1.0.0" == "" + ['-'] + "1.0.0";
    assert Scan(d, Initial, "") == Success(Initial);
    StepRejects(d, Initial, '-');
    FailsAt(d, "-1.0.0", "", '-', "1.0.0", Initial, InvalidCharacter('-'));
  }

  /** The state after "1.2.3". */
  function OneTwoThree(): ParserState {
    AfterNormal(VersionData(1, 2, 3, [], []))
  }

  lemma ScanOneTwoThree(d: Dialect)
    ensures Scan(d, Initial, "1.2.3") == Success(OneTwoThree())
  {
    var v := VersionData(1, 2, 3, [], []);
    assert NormalPart(v) == "1.2.3";
    ScanNormal(d, v);
  }

  lemma RejectsFourthNumber(d: Dialect)
    ensures ParseWith(d, "1.2.3.4") == Failure(InvalidCharacter('.'))
  {
    assert "1.2.3.4" == "1.2.3" + ['.'] + "4";
    ScanOneTwoThree(d);
    assert Step(d, OneTwoThree(), '.') == Failure(InvalidCharacter('.')) by {
      StepRejects(d, OneTwoThree(), '.');
    }
    FailsAt(d, "1.2.3.4", "1.2.3", '.', "4", OneTwoThree(), InvalidCharacter('.'));
  }

  lemma RejectsEmptyMajor(d: Dialect)
    ensures ParseWith(d, ".0.0") == Failure(NotANumber)
  {
    var m1 := Initial.(phase := Minor);
    var m2 := m1.(minor := "0", phase := Patch, prevPhase := Minor);
    var m3 := m2.(patch := "0");
    assert "." + "0." + "0" == ".0.0";
    assert Accepted(m2, "0");
    ScanTrigger(d, Initial, '.', Minor);
    ScanFieldDot(d, m1, "0", Patch);
    ScanFresh(d, m2, "0");
    ScanChain(d, Initial, ".", "0.", "0", m1, m2, m3);
    FailsInConvert(d, ".0.0", m3);
  }

  lemma RejectsEmptyMinor(d: Dialect)
    ensures ParseWith(d, "1..0") == Failure(NotANumber)
  {
    var m1 := Initial.(major := "1", phase := Minor);
    var m2 := m1.(phase := Patch, prevPhase := Minor);
    var m3 := m2.(patch := "0");
    assert "1." + "." + "0" == "1..0";
    assert Accepted(m2, "0");
    ScanFieldDot(d, Initial, "1", Minor);
    ScanTrigger(d, m1, '.', Patch);
    ScanFresh(d, m2, "0");
    ScanChain(d, Initial, "1.", ".", "0", m1, m2, m3);
    FailsInConvert(d, "1..0", m3);
  }

  lemma RejectsEmptyPatch(d: Dialect)
    ensures ParseWith(d, "1.1.") == Failure(NotANumber)
  {
    var m1 := Initial.(major := "1", phase := Minor);
    var m2 := m1.(minor := "1", phase := Patch, prevPhase := Minor);
    assert "1." + "1." == "1.1.";
    ScanFieldDot(d, Initial, "1", Minor);
    ScanFieldDot(d, m1, "1", Patch);
    ScanThrough(d, Initial, "1.", "1.", m1);
    FailsInConvert(d, "1.1.", m2);
  }

  /** The state after "1.0.0". */
  function OneZeroZero(): ParserState {
    AfterNormal(VersionData(1, 0, 0, [], []))
  }

  lemma ScanOneZeroZero(d: Dialect)
    ensures Scan(d, Initial, "1.0.0") == Success(OneZeroZero())
  {
    var v := VersionData(1, 0, 0, [], []);
    assert NormalPart(v) == "1.0.0";
    ScanNormal(d, v);
  }

  function OneZeroZeroBuild(): ParserState {
    OneZeroZero().(phase := Build, prevPhase := Patch, buildId := "build")
  }

  lemma ScanOneZeroZeroBuild(d: Dialect)
    ensures Scan(d, Initial, "1.0.0+build") == Success(OneZeroZeroBuild())
  {
    var m1 := OneZeroZero().(phase := Build, prevPhase := Patch);
    assert Target(m1) == [] && Accepted(m1, "build");
    assert "1.0.0" + "+" + "build" == "1.0.0+build";
    ScanOneZeroZero(d);
    ScanTrigger(d, OneZeroZero(), '+', Build);
    ScanFresh(d, m1, "build");
    ScanChain(d, Initial, "1.0.0", "+", "build", OneZeroZero(), m1, OneZeroZeroBuild());
  }

  lemma RejectsBadBuildChar(d: Dialect)
    ensures ParseWith(d, "1.0.0+build#1") == Failure(InvalidCharacter('#'))
  {
    assert "1.0.0+build#1" == "1.0.0+build" + ['#'] + "1";
    assert Step(d, OneZeroZeroBuild(), '#') == Failure(InvalidCharacter('#')) by {
      StepRejects(d, OneZeroZeroBuild(), '#');
    }
    assert Scan(d, Initial, "1.0.0+build") == Success(OneZeroZeroBuild()) by {
      ScanOneZeroZeroBuild(d);
    }
    FailsAt(d, "1.0.0+build#1", "1.0.0+build", '#', "1", OneZeroZeroBuild(), InvalidCharacter('#'));
  }

  /** The state after "1.0.0-prerel.". */
  function OneZeroZeroPrerelDot(): ParserState {
    OneZeroZero().(phase := Release, release := [Classify("prerel")], prevPhase := Release)
  }

  lemma ScanOneZeroZeroPrerelDot(d: Dialect)
    ensures Scan(d, Initial, "1.0.0-prerel.") == Success(OneZeroZeroPrerelDot())
  {
    var m1 := OneZeroZero().(phase := Release, prevPhase := Patch);
    var m2 := m1.(releaseId := "prerel");
    assert Target(m1) == [] && Accepted(m1, "prerel");
    assert ValidPrerelease(Classify("prerel"));
    assert "1.0.0" + "-" + "prerel" + "." == "1.0.0-prerel.";
    assert m2.(release := m2.release + [Classify(m2.releaseId)], releaseId := [], prevPhase := Release)
        == OneZeroZeroPrerelDot();
    ScanOneZeroZero(d);
    ScanTrigger(d, OneZeroZero(), '-', Release);
    ScanFresh(d, m1, "prerel");
    ScanChain(d, Initial, "1.0.0", "-", "prerel", OneZeroZero(), m1, m2);
    ReleaseDot(d, m2);
    ScanThrough(d, Initial, "1.0.0" + "-" + "prerel", ".", m2);
  }

  lemma RejectsEmptyPrerelease(d: Dialect)
    ensures ParseWith(d, "1.0.0-prerel..test") == Failure(EmptyIdentifier)
  {
    assert "1.0.0-prerel..test" == "1.0.0-prerel." + ['.'] + "test";
    assert Step(d, OneZeroZeroPrerelDot(), '.') == Failure(EmptyIdentifier);
    ScanOneZeroZeroPrerelDot(d);
    FailsAt(d, "1.0.0-prerel..test", "1.0.0-prerel.", '.', "test", OneZeroZeroPrerelDot(), EmptyIdentifier);
  }

  /** The state after "1.0.0+build.". */
  function OneZeroZeroBuildDot(): ParserState {
    OneZeroZero().(phase := Build, prevPhase := Build, build := ["build"])
  }

  /** The '.' after "1.0.0+build" finalizes "build". */
  lemma OneZeroZeroBuildDotStep(d: Dialect)
    ensures Scan(d, OneZeroZeroBuild(), ".") == Success(OneZeroZeroBuildDot())
  {
    var m := OneZeroZeroBuild();
    assert !DotFlushes(d, m) && IsIdentifier(m.buildId);
    assert m.(build := m.build + [m.buildId], buildId := [], prevPhase := Build) == OneZeroZeroBuildDot();
    BuildDot(d, m);
  }

  lemma ScanOneZeroZeroBuildDot(d: Dialect)
    ensures Scan(d, Initial, "1.0.0+build.") == Success(OneZeroZeroBuildDot())
  {
    ScanOneZeroZeroBuild(d);
    OneZeroZeroBuildDotStep(d);
    assert "1.0.0+build" + "." == "1.0.0+build.";
    ScanThrough(d, Initial, "1.0.0+build", ".", OneZeroZeroBuild());
  }

  lemma RejectsEmptyBuild(d: Dialect)
    ensures ParseWith(d, "1.0.0+build..test") == Failure(EmptyIdentifier)
  {
    assert "1.0.0+build..test" == "1.0.0+build." + ['.'] + "test";
    assert Step(d, OneZeroZeroBuildDot(), '.') == Failure(EmptyIdentifier);
    ScanOneZeroZeroBuildDot(d);
    FailsAt(d, "1.0.0+build..test", "1.0.0+build.", '.', "test", OneZeroZeroBuildDot(), EmptyIdentifier);
  }

  /**
   * "1.0.0-a+b.c": the parser as written loses the prerelease identifier
   * "a"; the corrected parser keeps it.
   */
  lemma LostPrerelease()
    ensures Parse("1.0.0-a+b.c") == Success(VersionData(1, 0, 0, [], ["b", "c"]))
    ensures ParseCorrected("1.0.0-a+b.c") == Success(VersionData(1, 0, 0, [PrereleaseIdentifier("a", Alnum)], ["b", "c"]))
  {
    var v := VersionData(1, 0, 0, [PrereleaseIdentifier("a", Alnum)], ["b", "c"]);
    assert !IsDigit("a"[0]);
    assert ValidPrerelease(v.prereleaseIds[0]);
    assert IsIdentifier(v.buildIds[0]) && IsIdentifier(v.buildIds[1]);
    assert WellFormed(v);
    assert Render(v) == "1.0.0-a+b.c";
    assert v.(prereleaseIds := []) == VersionData(1, 0, 0, [], ["b", "c"]);
    ParseDropsLastPrerelease(v);
    RoundTrip(Corrected, v);
  }

  /** The state after "1.0.0-prerel.01+": "01" is still pending. */
  function PendingZeroOne(): ParserState {
    OneZeroZeroPrerelDot().(releaseId := "01", phase := Build, prevPhase := Release)
  }

  lemma ScanPendingZeroOne(d: Dialect)
    ensures Scan(d, Initial, "1.0.0-prerel.01+") == Success(PendingZeroOne())
  {
    var p0 := OneZeroZeroPrerelDot();
    var p1 := p0.(releaseId := "01");
    assert Target(p0) == [] && Accepted(p0, "01");
    assert "1.0.0-prerel." + "01" + "+" == "1.0.0-prerel.01+";
    ScanOneZeroZeroPrerelDot(d);
    ScanFresh(d, p0, "01");
    ScanTrigger(d, p1, '+', Build);
    ScanChain(d, Initial, "1.0.0-prerel.", "01", "+", p0, p1, PendingZeroOne());
  }

  lemma JoinBuildOneTwoThree()
    ensures Splice(["build", "1", "2", "3"], ".") == "build.1.2.3"
  {
    var bs := ["build", "1", "2", "3"];
    assert bs[..3] == ["build", "1", "2"];
    assert ["build", "1", "2"][..2] == ["build", "1"];
    assert ["build", "1"][..1] == ["build"];
    assert Splice(["build", "1"], ".") == "build.1";
    assert Splice(["build", "1", "2"], ".") == "build.1.2";
  }

  /** The scan as written of "1.0.0-prerel.01+build.1.2.3": the build hooks never look at "01". */
  lemma ScanKeepsZeroOne()
    ensures Scan(AsWritten, Initial, "1.0.0-prerel.01+build.1.2.3")
         == Success(PendingZeroOne().(build := ["build", "1", "2"], buildId := "3", prevPhase := Build))
  {
    var bs := ["build", "1", "2", "3"];
    var q := PendingZeroOne();
    JoinBuildOneTwoThree();
    assert bs[..3] == ["build", "1", "2"];
    assert "1.0.0-prerel.01+" + "build.1.2.3" == "1.0.0-prerel.01+build.1.2.3";
    assert ValidBuilds(bs) by {
      assert IsIdentifier(bs[0]) && IsIdentifier(bs[1]) && IsIdentifier(bs[2]) && IsIdentifier(bs[3]);
    }
    assert AfterBuildIds(AsWritten, q, bs) == q.(build := ["build", "1", "2"], buildId := "3", prevPhase := Build);
    ScanPendingZeroOne(AsWritten);
    ScanBuild(AsWritten, q, bs);
    ScanThrough(AsWritten, Initial, "1.0.0-prerel.01+", "build.1.2.3", q);
  }

  /**
   * "1.0.0-prerel.01+build.1.2.3", which the test suite expects to be
   * refused for the numeric identifier "01" with a leading zero: the parser
   * as written accepts it and drops "01"; the corrected parser refuses it.
   */
  lemma AcceptsLeadingZeroBeforeBuild()
    ensures Parse("1.0.0-prerel.01+build.1.2.3")
         == Success(VersionData(1, 0, 0, [PrereleaseIdentifier("prerel", Alnum)], ["build", "1", "2", "3"]))
  {
    var m := PendingZeroOne().(build := ["build", "1", "2"], buildId := "3", prevPhase := Build);
    var f := m.(build := ["build", "1", "2", "3"], buildId := []);
    assert ["build", "1", "2"] + ["3"] == ["build", "1", "2", "3"];
    assert Finish(m) == Success(f);
    assert Value("1") == 1 && Value("0") == 0;
    assert Classify("prerel") == PrereleaseIdentifier("prerel", Alnum) by {
      assert !IsDigit("prerel"[0]);
    }
    assert Convert(f) == Success(VersionData(1, 0, 0, [PrereleaseIdentifier("prerel", Alnum)], ["build", "1", "2", "3"]));
    ScanKeepsZeroOne();
  }

  lemma CorrectedRejectsLeadingZeroBeforeBuild()
    ensures ParseCorrected("1.0.0-prerel.01+build.1.2.3") == Failure(NumericLeadingZero)
  {
    var q := PendingZeroOne();
    var q1 := q.(buildId := "build");
    assert "1.0.0-prerel.01+build.1.2.3" == "1.0.0-prerel.01+build" + ['.'] + "1.2.3";
    assert "1.0.0-prerel.01+" + "build" == "1.0.0-prerel.01+build";
    assert Step(Corrected, q1, '.') == Failure(NumericLeadingZero) by {
      assert FinalizeRelease(q1) == Failure(NumericLeadingZero);
    }
    assert Scan(Corrected, Initial, "1.0.0-prerel.01+build") == Success(q1) by {
      assert Target(q) == [] && Accepted(q, "build");
      ScanPendingZeroOne(Corrected);
      ScanFresh(Corrected, q, "build");
      ScanThrough(Corrected, Initial, "1.0.0-prerel.01+", "build", q);
    }
    FailsAt(Corrected, "1.0.0-prerel.01+build.1.2.3", "1.0.0-prerel.01+build", '.', "1.2.3", q1, NumericLeadingZero);
  }
}
