/**
 * How the parse loop behaves on whole pieces of input: concatenations,
 * runs of accumulator characters, and dot-separated identifier lists.
 */
module ParserScan {
  import opened Wrappers
  import opened Decimal
  import opened VersionModel
  import opened Semver200Parser
  import opened VersionRender

  /** Continue a scan result with more input. */
  function Then(d: Dialect, r: Result<ParserState, ParseError>, b: string): Result<ParserState, ParseError>
  {
    if r.Success? then Scan(d, r.value, b) else Failure(r.error)
  }

  /** Scanning a concatenation scans the first part, then the second from where it stopped. */
  lemma {:induction false} ScanAppend(d: Dialect, st: ParserState, a: string, b: string)
    ensures Scan(d, st, a + b) == Then(d, Scan(d, st, a), b)
    decreases |a|
  {
    if |a| == 0 {
      assert a + b == b;
    } else {
      assert (a + b)[0] == a[0];
      assert (a + b)[1..] == a[1..] + b;
      var r := Step(d, st, a[0]);
      if r.Success? {
        ScanAppend(d, r.value, a[1..], b);
      }
    }
  }

  /** A scan that reached `m` on `a` continues on `b` from `m`. */
  lemma ScanThrough(d: Dialect, st: ParserState, a: string, b: string, m: ParserState)
    requires Scan(d, st, a) == Success(m)
    ensures Scan(d, st, a + b) == Scan(d, m, b)
  {
    ScanAppend(d, st, a, b);
  }

  /** Three consecutive scans chain into one. */
  lemma ScanChain(d: Dialect, st: ParserState, a: string, b: string, c: string, m: ParserState, m1: ParserState, m2: ParserState)
    requires Scan(d, st, a) == Success(m)
    requires Scan(d, m, b) == Success(m1)
    requires Scan(d, m1, c) == Success(m2)
    ensures Scan(d, st, a + b + c) == Success(m2)
  {
    ScanThrough(d, st, a, b, m);
    ScanThrough(d, st, a + b, c, m1);
  }

  /** A trigger without a hook only moves to the next phase. */
  lemma ScanTrigger(d: Dialect, m: ParserState, c: char, next: Phase)
    requires TransitionFor(m.phase, c) == Some((next, NoHook))
    ensures Scan(d, m, [c]) == Success(m.(phase := next, prevPhase := m.phase))
  {
    assert Step(d, m, c) == Success(m.(phase := next, prevPhase := m.phase));
    assert [c][0] == c && [c][1..] == [];
  }

  /** The characters a phase appends without complaint. */
  predicate Accepted(st: ParserState, t: string) {
    if IsNormalPhase(st.phase) then AllDigits(t) && NoLeadingZero(Target(st) + t)
    else AllIdentChars(t)
  }

  /** A run of accepted characters only grows the phase's accumulator. */
  lemma {:induction false} ScanAccumulates(d: Dialect, st: ParserState, t: string)
    requires Accepted(st, t)
    ensures Scan(d, st, t) == Success(WithTarget(st, Target(st) + t))
    decreases |t|
  {
    if |t| == 0 {
      assert Target(st) + t == Target(st);
      assert WithTarget(st, Target(st)) == st;
    } else {
      var c := t[0];
      assert TransitionFor(st.phase, c).None?;
      if IsNormalPhase(st.phase) {
        assert (Target(st) + t)[0] == (if |Target(st)| > 0 then Target(st)[0] else c);
      }
      var st1 := WithTarget(st, Target(st) + [c]);
      assert Step(d, st, c) == Success(st1);
      assert Target(st1) + t[1..] == Target(st) + t;
      ScanAccumulates(d, st1, t[1..]);
    }
  }

  /** A run of accepted characters from an empty accumulator becomes the accumulator. */
  lemma ScanFresh(d: Dialect, st: ParserState, t: string)
    requires Target(st) == [] && Accepted(st, t)
    ensures Scan(d, st, t) == Success(WithTarget(st, t))
  {
    assert Target(st) + t == t;
    ScanAccumulates(d, st, t);
  }

  /** A '.' in the release phase finalizes a valid pending prerelease identifier. */
  lemma ReleaseDot(d: Dialect, m: ParserState)
    requires m.phase == Release
    requires ValidPrerelease(Classify(m.releaseId))
    ensures Scan(d, m, ".") == Success(m.(
      release := m.release + [Classify(m.releaseId)], releaseId := [], prevPhase := Release))
  {
    var m1 := m.(release := m.release + [Classify(m.releaseId)], releaseId := [], prevPhase := Release);
    assert FinalizeRelease(m) == Success(m1.(prevPhase := m.prevPhase));
    assert FinalizeRelease(m.(prevPhase := Release)) == Success(m1);
    assert Step(d, m, '.') == Success(m1);
    assert "."[1..] == [];
  }

  /** Finalize the pending prerelease identifier, as the release hook does on success. */
  function FlushPending(st: ParserState): ParserState {
    st.(release := st.release + [Classify(st.releaseId)], releaseId := [])
  }

  /** Whether the build hook of the next '.' finalizes a pending prerelease identifier. */
  predicate DotFlushes(d: Dialect, st: ParserState) {
    d == Corrected && st.prevPhase == Release
  }

  /** A '.' in the build phase finalizes the pending build identifier, and the pending prerelease identifier when the hook sees the release phase. */
  lemma BuildDot(d: Dialect, m: ParserState)
    requires m.phase == Build && IsIdentifier(m.buildId)
    requires DotFlushes(d, m) ==> ValidPrerelease(Classify(m.releaseId))
    ensures Scan(d, m, ".") == Success((if DotFlushes(d, m) then FlushPending(m) else m).(
      build := m.build + [m.buildId], buildId := [], prevPhase := Build))
  {
    var base := if DotFlushes(d, m) then FlushPending(m) else m;
    var m1 := base.(build := m.build + [m.buildId], buildId := [], prevPhase := Build);
    if d == AsWritten {
      assert FinalizeBuild(m.(prevPhase := Build)) == Success(m1);
    } else if m.prevPhase == Release {
      assert FinalizeRelease(m) == Success(FlushPending(m));
      assert FinalizeBuild(m) == Success(m1.(prevPhase := m.prevPhase));
    } else {
      assert FinalizeBuild(m) == Success(m1.(prevPhase := m.prevPhase));
    }
    assert Step(d, m, '.') == Success(m1);
    assert "."[1..] == [];
  }

  /** The state after the joined texts of `ids`, before the last one is finalized. */
  function AfterPrereleaseIds(st: ParserState, ids: seq<PrereleaseIdentifier>): ParserState
    requires |ids| > 0
  {
    st.(release := st.release + ids[..|ids| - 1],
        releaseId := ids[|ids| - 1].text,
        prevPhase := if |ids| > 1 then Release else st.prevPhase)
  }

  /** Scanning the joined texts of valid prerelease identifiers in the release phase. */
  lemma {:induction false} ScanPrerelease(d: Dialect, st: ParserState, ids: seq<PrereleaseIdentifier>)
    requires st.phase == Release && st.releaseId == []
    requires |ids| > 0 && ValidPrereleases(ids)
    ensures Scan(d, st, Splice(Texts(ids), ".")) == Success(AfterPrereleaseIds(st, ids))
    decreases |ids|
  {
    var n := |ids|;
    var last := ids[n - 1];
    assert ValidPrerelease(last);
    if n == 1 {
      assert Splice(Texts(ids), ".") == last.text;
      ScanFresh(d, st, last.text);
      assert ids[..0] == [];
      assert st.release + [] == st.release;
    } else {
      ScanPrerelease(d, st, ids[..n - 1]);
      ScanPrereleaseLast(d, st, ids);
    }
  }

  lemma ScanPrereleaseLast(d: Dialect, st: ParserState, ids: seq<PrereleaseIdentifier>)
    requires st.phase == Release && st.releaseId == []
    requires |ids| > 1 && ValidPrereleases(ids)
    requires Scan(d, st, Splice(Texts(ids[..|ids| - 1]), ".")) == Success(AfterPrereleaseIds(st, ids[..|ids| - 1]))
    ensures Scan(d, st, Splice(Texts(ids), ".")) == Success(AfterPrereleaseIds(st, ids))
  {
    var n := |ids|;
    var last := ids[n - 1];
    var p := Splice(Texts(ids[..n - 1]), ".");
    JoinedTextsSnoc(ids);
    var m := AfterPrereleaseIds(st, ids[..n - 1]);
    var m1 := AfterPrereleaseIds(st, ids).(releaseId := []);
    PrereleaseDotStep(d, st, ids);
    assert ValidPrerelease(last);
    assert Scan(d, m1, last.text) == Success(AfterPrereleaseIds(st, ids)) by {
      ScanFresh(d, m1, last.text);
    }
    ScanChain(d, st, p, ".", last.text, m, m1, AfterPrereleaseIds(st, ids));
  }

  lemma JoinedTextsSnoc(ids: seq<PrereleaseIdentifier>)
    requires |ids| > 1
    ensures Splice(Texts(ids), ".") == Splice(Texts(ids[..|ids| - 1]), ".") + "." + ids[|ids| - 1].text
  {
    assert Texts(ids)[..|ids| - 1] == Texts(ids[..|ids| - 1]);
  }

  /** The '.' after an identifier that is not the last finalizes it. */
  lemma PrereleaseDotStep(d: Dialect, st: ParserState, ids: seq<PrereleaseIdentifier>)
    requires st.phase == Release
    requires |ids| > 1 && ValidPrereleases(ids)
    ensures Scan(d, AfterPrereleaseIds(st, ids[..|ids| - 1]), ".") == Success(AfterPrereleaseIds(st, ids).(releaseId := []))
  {
    var n := |ids|;
    var init := ids[..n - 1];
    var m := AfterPrereleaseIds(st, init);
    assert ValidPrerelease(init[n - 2]);
    assert Classify(init[n - 2].text) == init[n - 2];
    assert m.releaseId == init[n - 2].text;
    assert init[..n - 2] + [init[n - 2]] == ids[..n - 1];
    assert m.release + [Classify(m.releaseId)] == st.release + ids[..n - 1];
    ReleaseDot(d, m);
  }

  /** The state after the joined build identifiers `bs`, before the last one is finalized. */
  function AfterBuildIds(d: Dialect, st: ParserState, bs: seq<string>): ParserState
    requires |bs| > 0
  {
    (if DotFlushes(d, st) && |bs| > 1 then FlushPending(st) else st).(
      build := st.build + bs[..|bs| - 1],
      buildId := bs[|bs| - 1],
      prevPhase := if |bs| > 1 then Build else st.prevPhase)
  }

  /**
   * Scanning joined build identifiers in the build phase. The hook of the
   * first '.' finalizes a pending prerelease identifier only in the
   * corrected dialect.
   */
  lemma {:induction false} ScanBuild(d: Dialect, st: ParserState, bs: seq<string>)
    requires st.phase == Build && st.buildId == []
    requires |bs| > 0 && ValidBuilds(bs)
    requires DotFlushes(d, st) && |bs| > 1 ==> ValidPrerelease(Classify(st.releaseId))
    ensures Scan(d, st, Splice(bs, ".")) == Success(AfterBuildIds(d, st, bs))
    decreases |bs|
  {
    var n := |bs|;
    var last := bs[n - 1];
    assert IsIdentifier(last);
    if n == 1 {
      assert Splice(bs, ".") == last;
      assert Target(st) + last == last;
      ScanAccumulates(d, st, last);
      assert bs[..0] == [];
      assert st.build + [] == st.build;
    } else {
      ScanBuild(d, st, bs[..n - 1]);
      ScanBuildLast(d, st, bs);
    }
  }

  lemma ScanBuildLast(d: Dialect, st: ParserState, bs: seq<string>)
    requires st.phase == Build && st.buildId == []
    requires |bs| > 1 && ValidBuilds(bs)
    requires DotFlushes(d, st) ==> ValidPrerelease(Classify(st.releaseId))
    requires Scan(d, st, Splice(bs[..|bs| - 1], ".")) == Success(AfterBuildIds(d, st, bs[..|bs| - 1]))
    ensures Scan(d, st, Splice(bs, ".")) == Success(AfterBuildIds(d, st, bs))
  {
    var n := |bs|;
    var last := bs[n - 1];
    var p := Splice(bs[..n - 1], ".");
    assert Splice(bs, ".") == p + "." + last;
    var m := AfterBuildIds(d, st, bs[..n - 1]);
    var m1 := AfterBuildIds(d, st, bs).(buildId := []);
    BuildDotStep(d, st, bs);
    assert IsIdentifier(last);
    assert Scan(d, m1, last) == Success(AfterBuildIds(d, st, bs)) by {
      ScanFresh(d, m1, last);
    }
    ScanChain(d, st, p, ".", last, m, m1, AfterBuildIds(d, st, bs));
  }

  /** The '.' after a build identifier that is not the last finalizes it. */
  lemma BuildDotStep(d: Dialect, st: ParserState, bs: seq<string>)
    requires st.phase == Build
    requires |bs| > 1 && ValidBuilds(bs)
    requires DotFlushes(d, st) ==> ValidPrerelease(Classify(st.releaseId))
    ensures Scan(d, AfterBuildIds(d, st, bs[..|bs| - 1]), ".") == Success(AfterBuildIds(d, st, bs).(buildId := []))
  {
    var n := |bs|;
    var init := bs[..n - 1];
    var m := AfterBuildIds(d, st, init);
    assert IsIdentifier(init[n - 2]);
    assert init[..n - 2] + [init[n - 2]] == bs[..n - 1];
    assert m.build + [m.buildId] == st.build + bs[..n - 1];
    if n - 1 > 1 {
      assert !DotFlushes(d, m);
    } else {
      assert m.release == st.release && m.releaseId == st.releaseId;
      assert DotFlushes(d, m) == DotFlushes(d, st);
    }
    BuildDot(d, m);
  }
}
