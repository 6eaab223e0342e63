/**
 * Rendering a version back to text: `splice`, `prerelease()`, `build()` and
 * `operator<<`, with the output stream replaced by string concatenation.
 */
module VersionRender {
  import opened Wrappers
  import opened Decimal
  import opened VersionModel

  /**
   * `splice`: every element but the last followed by `sep`, then the last.
   * The source reads `v.cend() - 1` and `*v.crbegin()`, so it has no meaning
   * for an empty vector.
   */
  function Splice(v: seq<string>, sep: string): string
    requires |v| > 0
    decreases |v|
  {
    if |v| == 1 then v[0] else Splice(v[..|v| - 1], sep) + sep + v[|v| - 1]
  }

  /** The joined text starts with the first piece, followed by the separator when more pieces follow. */
  lemma {:induction false} SpliceStartsWithFirst(v: seq<string>, sep: string)
    requires |v| > 0
    ensures v[0] <= Splice(v, sep)
    ensures |v| > 1 ==> v[0] + sep <= Splice(v, sep)
    decreases |v|
  {
    if |v| > 1 {
      var w := v[..|v| - 1];
      assert w[0] == v[0];
      SpliceStartsWithFirst(w, sep);
      if |v| == 2 {
        assert w == [v[0]];
      }
    }
  }

  /** Position of the last `c` in `s`, or -1 when there is none. */
  function LastIndexOf(s: string, c: char): (i: int)
    ensures -1 <= i < |s|
    ensures i >= 0 ==> s[i] == c
    ensures forall j :: i < j < |s| ==> s[j] != c
    decreases |s|
  {
    if |s| == 0 then -1
    else if s[|s| - 1] == c then |s| - 1
    else LastIndexOf(s[..|s| - 1], c)
  }

  /** Cut `s` at every `sep`: the reading a consumer of the rendered text applies. */
  function Split(s: string, sep: char): (r: seq<string>)
    ensures |r| > 0
    decreases |s|
  {
    var i := LastIndexOf(s, sep);
    if i < 0 then [s] else Split(s[..i], sep) + [s[i + 1..]]
  }

  /** Joining pieces that hold no separator can be undone by cutting at the separator. */
  lemma {:induction false} SplitSplice(v: seq<string>, sep: char)
    requires |v| > 0
    requires forall i :: 0 <= i < |v| ==> sep !in v[i]
    ensures Split(Splice(v, [sep]), sep) == v
    decreases |v|
  {
    var s := Splice(v, [sep]);
    if |v| == 1 {
      assert LastIndexOf(s, sep) < 0;
    } else {
      var p := Splice(v[..|v| - 1], [sep]);
      var last := v[|v| - 1];
      assert s == p + [sep] + last;
      assert s[|p|] == sep;
      assert s[|p| + 1..] == last;
      var i := LastIndexOf(s, sep);
      assert i == |p|;
      assert s[..i] == p;
      SplitSplice(v[..|v| - 1], sep);
      assert v == v[..|v| - 1] + [last];
    }
  }

  /** `Basic_version::prerelease()`: the identifier texts joined with '.'. */
  function PrereleaseText(v: VersionData): string
    requires |v.prereleaseIds| > 0
  {
    Splice(Texts(v.prereleaseIds), ".")
  }

  /** `Basic_version::build()`: the build identifiers joined with '.'. */
  function BuildText(v: VersionData): string
    requires |v.buildIds| > 0
  {
    Splice(v.buildIds, ".")
  }

  /** `prerelease()` of a well-formed version cuts back at '.' into its identifier texts. */
  lemma PrereleaseTextSplits(v: VersionData)
    requires WellFormed(v) && |v.prereleaseIds| > 0
    ensures Split(PrereleaseText(v), '.') == Texts(v.prereleaseIds)
  {
    var ts := Texts(v.prereleaseIds);
    forall i | 0 <= i < |ts| ensures IsIdentifier(ts[i]) {
      assert ValidPrerelease(v.prereleaseIds[i]);
    }
    NoDotInIdentifiers(ts);
    SplitSplice(ts, '.');
  }

  /** `build()` of a well-formed version cuts back at '.' into its identifiers. */
  lemma BuildTextSplits(v: VersionData)
    requires WellFormed(v) && |v.buildIds| > 0
    ensures Split(BuildText(v), '.') == v.buildIds
  {
    NoDotInIdentifiers(v.buildIds);
    SplitSplice(v.buildIds, '.');
  }

  /** Identifiers hold no '.'. */
  lemma NoDotInIdentifiers(ts: seq<string>)
    requires forall i :: 0 <= i < |ts| ==> IsIdentifier(ts[i])
    ensures forall i :: 0 <= i < |ts| ==> '.' !in ts[i]
  {
    forall i, j | 0 <= i < |ts| && 0 <= j < |ts[i]| ensures ts[i][j] != '.' {
      assert IsIdentChar(ts[i][j]);
    }
  }

  /**
   * `operator<<` with each call of `prerelease()` and `build()` made only
   * when there is something to join, which is what the output shows
   * whenever the source's calls are defined.
   */
  function Render(v: VersionData): string {
    ToDecimal(v.major) + "." + ToDecimal(v.minor) + "." + ToDecimal(v.patch)
    + (if |v.prereleaseIds| > 0 then "-" + PrereleaseText(v) else "")
    + (if |v.buildIds| > 0 then "+" + BuildText(v) else "")
  }

  /**
   * `splice` as the source runs it on any vector: `None` stands for the
   * undefined behaviour of reading before the start of an empty vector.
   */
  function SpliceAsWritten(v: seq<string>, sep: string): (r: Option<string>)
    ensures r.Some? <==> |v| > 0
    ensures r.Some? && |sep| == 1 && (forall i :: 0 <= i < |v| ==> sep[0] !in v[i]) ==> Split(r.value, sep[0]) == v
    ensures r.Some? ==> |r.value| >= |v[|v| - 1]|
  {
    if |v| == 0 then None
    else
      SpliceEndsWithLast(v, sep);
      if |sep| == 1 && (forall i :: 0 <= i < |v| ==> sep[0] !in v[i]) then
        assert [sep[0]] == sep;
        SplitSplice(v, sep[0]);
        Some(Splice(v, sep))
      else
        Some(Splice(v, sep))
  }

  /** `operator<<` as written: `prerelease()` and `build()` are called unconditionally. */
  function RenderAsWritten(v: VersionData): (r: Option<string>)
    ensures r.Some? <==> |v.prereleaseIds| > 0 && |v.buildIds| > 0
  {
    var prl :- SpliceAsWritten(Texts(v.prereleaseIds), ".");
    var bld :- SpliceAsWritten(v.buildIds, ".");
    Some(ToDecimal(v.major) + "." + ToDecimal(v.minor) + "." + ToDecimal(v.patch)
         + (if |prl| > 0 then "-" + prl else "")
         + (if |bld| > 0 then "+" + bld else ""))
  }

  /**
   * `operator<<` as written produces text only for versions with both
   * prerelease and build identifiers, and then the text `Render` gives.
   */
  lemma RenderAsWrittenDefinedOnlyWithBoth(v: VersionData)
    requires WellFormed(v)
    ensures RenderAsWritten(v).Some? <==> |v.prereleaseIds| > 0 && |v.buildIds| > 0
    ensures RenderAsWritten(v).Some? ==> RenderAsWritten(v).value == Render(v)
  {
    var ts := Texts(v.prereleaseIds);
    if |v.prereleaseIds| > 0 && |v.buildIds| > 0 {
      assert IsIdentifier(ts[|ts| - 1]);
      SpliceEndsWithLast(ts, ".");
      assert IsIdentifier(v.buildIds[|v.buildIds| - 1]);
      SpliceEndsWithLast(v.buildIds, ".");
    }
  }

  /** A join is at least as long as its last piece. */
  lemma SpliceEndsWithLast(v: seq<string>, sep: string)
    requires |v| > 0
    ensures |Splice(v, sep)| >= |v[|v| - 1]|
  {
  }

  /** Printing a plain `1.0.0` reads before the start of both empty vectors as written; `Render` prints it. */
  lemma RenderAsWrittenPlainVersion()
    ensures RenderAsWritten(VersionData(1, 0, 0, [], [])) == None
    ensures Render(VersionData(1, 0, 0, [], [])) == "1.0.0"
  {
    assert ToDecimal(1) == "1" by {
      assert Value("1") == 1;
      ValueInjective(ToDecimal(1), "1");
    }
    assert ToDecimal(0) == "0" by {
      assert Value("0") == 0;
      ValueInjective(ToDecimal(0), "0");
    }
  }
}
