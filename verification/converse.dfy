/**
 * What the parser as written accepts. Every accepted string is the
 * rendering of its result, except that with two or more build identifiers
 * one more prerelease identifier may stand before the '+': any run of
 * identifier characters, which the parser drops.
 */
module ParserConverse {
  import opened Wrappers
  import opened Decimal
  import opened VersionModel
  import opened Semver200Parser
  import opened VersionRender
  import opened ParserScan
  import opened ParserRoundTrip
  import opened ParserReverse
  import opened ParserPending

  /** Position of the first `c` in `s`, or `|s|` when there is none. */
  function FirstIndexOf(s: string, c: char): (i: nat)
    ensures i <= |s|
    ensures i < |s| ==> s[i] == c
    ensures forall j :: 0 <= j < i ==> s[j] != c
  {
    if |s| == 0 then 0
    else if s[0] == c then 0
    else
      var k := FirstIndexOf(s[1..], c);
      assert forall j :: 1 <= j < 1 + k ==> s[j] == s[1..][j - 1];
      1 + k
  }

  /** Without a '+' the scan never reaches the build phase nor gains a build identifier. */
  lemma {:induction false} ScanWithoutPlus(d: Dialect, st: ParserState, a: string)
    requires st.phase != Build && st.build == []
    requires forall j :: 0 <= j < |a| ==> a[j] != '+'
    requires Scan(d, st, a).Success?
    ensures Scan(d, st, a).value.phase != Build
    ensures Scan(d, st, a).value.build == []
    decreases |a|
  {
    if |a| > 0 {
      var r := Step(d, st, a[0]);
      assert r.Success? && Scan(d, st, a) == Scan(d, r.value, a[1..]);
      StepEntersBuild(d, st, a[0]);
      StepKeepsBuilds(d, st, a[0]);
      assert forall j :: 0 <= j < |a[1..]| ==> a[1..][j] == a[j + 1];
      ScanWithoutPlus(d, r.value, a[1..]);
    }
  }

  /**
   * In the build phase as written, each character only extends the joined
   * build text; the prerelease part and the normal triple stay as they were.
   */
  predicate BuildTail(m: ParserState, q: ParserState, u: string)
    requires m.phase == Build
  {
    && q == m.(build := q.build, buildId := q.buildId, prevPhase := q.prevPhase)
    && Splice(q.build + [q.buildId], ".") == Splice(m.build + [m.buildId], ".") + u
    && |q.build| >= |m.build|
    && (q.prevPhase == m.prevPhase || q.prevPhase == Build)
    && (|q.build| > |m.build| ==> q.prevPhase == Build)
  }

  lemma StepBuildPart(m: ParserState, c: char)
    requires m.phase == Build && Step(AsWritten, m, c).Success?
    ensures BuildTail(m, Step(AsWritten, m, c).value, [c])
  {
    var q := Step(AsWritten, m, c).value;
    if c == '.' {
      assert q == m.(prevPhase := Build, build := m.build + [m.buildId], buildId := []);
      SpliceOpenNext(m.build, m.buildId, ".");
    } else {
      assert q == m.(buildId := m.buildId + [c]);
      SpliceExtendLast(m.build, m.buildId, [c], ".");
    }
  }

  lemma {:induction false} ScanBuildPart(m: ParserState, u: string)
    requires m.phase == Build && Scan(AsWritten, m, u).Success?
    ensures BuildTail(m, Scan(AsWritten, m, u).value, u)
    decreases |u|
  {
    if |u| == 0 {
      assert Splice(m.build + [m.buildId], ".") + u == Splice(m.build + [m.buildId], ".");
    } else {
      var r := Step(AsWritten, m, u[0]).value;
      assert Scan(AsWritten, m, u) == Scan(AsWritten, r, u[1..]);
      StepBuildPart(m, u[0]);
      ScanBuildPart(r, u[1..]);
      ConsSplit(Splice(m.build + [m.buildId], "."), u);
    }
  }

  /** The scan up to the first '+': as in the corrected dialect, and it consumed exactly the prefix. */
  lemma ScanBeforePlus(a: string, p: ParserState)
    requires forall j :: 0 <= j < |a| ==> a[j] != '+'
    requires Scan(AsWritten, Initial, a) == Success(p)
    ensures p.phase != Build && Shape(p) && Inv(p)
    ensures Consumed(p) == a
  {
    ScanWithoutPlus(AsWritten, Initial, a);
    ScanAgrees(Initial, a);
    assert Inv(Initial) && Shape(Initial);
    ScanConsumed(Initial, a);
  }

  /** '+' accepted outside the build phase: only in the patch or the release phase, and it only moves there. */
  lemma PlusStep(p: ParserState)
    requires p.phase != Build && Shape(p) && Step(AsWritten, p, '+').Success?
    ensures p.phase == Patch || p.phase == Release
    ensures p.build == [] && p.buildId == []
    ensures Step(AsWritten, p, '+') == Success(p.(prevPhase := p.phase, phase := Build))
  {
  }

  /** The text before '+' when the scan left a prerelease identifier pending. */
  lemma PendingPrefixOf(v: VersionData, p: ParserState)
    requires p.phase == Release && ConvertedFrom(v, p) && v.prereleaseIds == p.release
    ensures Consumed(p) == PendingPrefix(v, p.releaseId)
  {
    SpliceSnoc(Texts(p.release), p.releaseId, ".");
  }

  /**
   * Every string the parser as written accepts is the rendering of its
   * result, or, with two or more build identifiers, that rendering with one
   * more run of identifier characters added as the last prerelease identifier.
   */
  lemma AcceptedAsWritten(s: string)
    requires Parse(s).Success?
    ensures var v := Parse(s).value;
      || (Recoverable(AsWritten, v) && s == Render(v))
      || (|v.buildIds| > 1 && exists t :: AllIdentChars(t) && s == PendingText(v, t))
  {
    var v := Parse(s).value;
    if |v.buildIds| <= 1 {
      RenderOfParse(s);
    } else {
      var i := FirstIndexOf(s, '+');
      if i == |s| {
        ScanWithoutPlus(AsWritten, Initial, s);
        assert false;
      }
      var p, q := SplitAtPlus(s, i);
      AcceptedFromBuild(s, s[..i], s[i + 1..], p, q, v);
    }
  }

  /** The scan of an accepted string, cut at its first '+'. */
  lemma SplitAtPlus(s: string, i: nat) returns (p: ParserState, q: ParserState)
    requires i < |s| && s[i] == '+' && forall j :: 0 <= j < i ==> s[j] != '+'
    requires Scan(AsWritten, Initial, s).Success?
    ensures s == s[..i] + (['+'] + s[i + 1..])
    ensures p.phase in {Patch, Release} && Shape(p) && Inv(p) && Consumed(p) == s[..i]
    ensures p.build == [] && p.buildId == []
    ensures BuildTail(p.(prevPhase := p.phase, phase := Build), q, s[i + 1..])
    ensures Scan(AsWritten, Initial, s) == Success(q)
  {
    var a, u := s[..i], s[i + 1..];
    assert s == a + (['+'] + u);
    ScanAppend(AsWritten, Initial, a, ['+'] + u);
    p := Scan(AsWritten, Initial, a).value;
    ScanBeforePlus(a, p);
    assert Scan(AsWritten, p, ['+'] + u) == Then(AsWritten, Step(AsWritten, p, '+'), u);
    PlusStep(p);
    var b := p.(prevPhase := p.phase, phase := Build);
    q := Scan(AsWritten, b, u).value;
    ScanBuildPart(b, u);
  }

  /** The end-of-input hook and the conversion after a scan that ended in the build phase. */
  lemma ParseFromBuild(s: string, q: ParserState)
    requires Scan(AsWritten, Initial, s) == Success(q) && q.phase == Build && Parse(s).Success?
    ensures var v := Parse(s).value;
      && v.buildIds == q.build + [q.buildId]
      && ToDecimal(v.major) == q.major && ToDecimal(v.minor) == q.minor && ToDecimal(v.patch) == q.patch
      && (q.prevPhase != Release ==> v.prereleaseIds == q.release)
  {
    assert Inv(Initial);
    assert Inv(q);
    var fin := Finish(q).value;
    assert ParseWith(AsWritten, s) == Convert(fin);
  }

  /** A '+' read in the patch phase: the text is the rendering. */
  lemma RenderAfterPatch(s: string, u: string, p: ParserState, v: VersionData)
    requires s == Consumed(p) + (['+'] + u)
    requires p.phase == Patch && Shape(p) && ConvertedFrom(v, p)
    requires v.prereleaseIds == [] && |v.buildIds| > 0 && BuildText(v) == u
    ensures s == Render(v)
  {
    RenderBuild(v, p);
  }

  /** A '+' read in the release phase: the text is the rendering with the pending identifier. */
  lemma PendingAfterRelease(s: string, u: string, p: ParserState, v: VersionData)
    requires s == Consumed(p) + (['+'] + u)
    requires p.phase == Release && ConvertedFrom(v, p)
    requires v.prereleaseIds == p.release && |v.buildIds| > 0 && BuildText(v) == u
    ensures s == PendingText(v, p.releaseId)
  {
    PendingPrefixOf(v, p);
  }

  /** The end of the proof of `AcceptedAsWritten`, from the state the scan ends in. */
  lemma AcceptedFromBuild(s: string, a: string, u: string, p: ParserState, q: ParserState, v: VersionData)
    requires s == a + (['+'] + u)
    requires p.phase in {Patch, Release} && Shape(p) && Consumed(p) == a && Inv(p)
    requires p.build == [] && p.buildId == []
    requires BuildTail(p.(prevPhase := p.phase, phase := Build), q, u)
    requires Scan(AsWritten, Initial, s) == Success(q)
    requires Parse(s) == Success(v) && |v.buildIds| > 1
    ensures || (Recoverable(AsWritten, v) && s == Render(v))
            || (exists t :: AllIdentChars(t) && s == PendingText(v, t))
  {
    ParseFromBuild(s, q);
    assert q.prevPhase != Release;
    assert ConvertedFrom(v, p) && v.prereleaseIds == p.release;
    assert BuildText(v) == u by {
      assert Splice([] + [[]], ".") == "";
      assert "" + u == u;
    }
    if p.phase == Patch {
      RenderAfterPatch(s, u, p, v);
    } else {
      PendingAfterRelease(s, u, p, v);
    }
  }

  /**
   * The strings the parser as written turns into a well-formed `v`: the
   * rendering of `v` when that survives the round trip, and with two or more
   * build identifiers the rendering with any one more prerelease identifier.
   */
  lemma AcceptedAsWrittenExactly(s: string, v: VersionData)
    requires WellFormed(v)
    ensures Parse(s) == Success(v) <==>
      || (Recoverable(AsWritten, v) && s == Render(v))
      || (|v.buildIds| > 1 && exists t :: AllIdentChars(t) && s == PendingText(v, t))
  {
    if Parse(s) == Success(v) {
      AcceptedAsWritten(s);
    } else if Recoverable(AsWritten, v) && s == Render(v) {
      RoundTrip(AsWritten, v);
    } else if |v.buildIds| > 1 && exists t :: AllIdentChars(t) && s == PendingText(v, t) {
      var t :| AllIdentChars(t) && s == PendingText(v, t);
      ParseIgnoresPendingIdentifier(v, t);
    }
  }
}
