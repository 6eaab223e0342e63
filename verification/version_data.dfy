/**
 * The parsed form of a SemVer 2.0.0 version: the normal triple, the
 * kind-tagged prerelease identifiers and the plain build identifiers.
 */
module VersionModel {
  import opened Decimal

  /** Kind of a prerelease identifier: all digits, or anything else. */
  datatype IdentifierType = Num | Alnum

  /** A prerelease identifier: its text and its kind. */
  datatype PrereleaseIdentifier = PrereleaseIdentifier(text: string, kind: IdentifierType)

  datatype VersionData = VersionData(
    major: nat,
    minor: nat,
    patch: nat,
    prereleaseIds: seq<PrereleaseIdentifier>,
    buildIds: seq<string>)

  /** ASCII letters, digits and hyphen: the characters of an identifier. */
  predicate IsIdentChar(c: char) {
    IsDigit(c) || ('A' <= c <= 'Z') || ('a' <= c <= 'z') || c == '-'
  }

  predicate AllIdentChars(s: string) {
    forall i :: 0 <= i < |s| ==> IsIdentChar(s[i])
  }

  /** A non-empty run of identifier characters. */
  predicate IsIdentifier(s: string) {
    |s| > 0 && AllIdentChars(s)
  }

  /** An identifier is numeric when it holds no character other than a digit. */
  predicate IsIdentifierNumeric(s: string) {
    AllDigits(s)
  }

  /** A numeric identifier longer than one character that starts with '0'. */
  predicate HasLeadingZero(s: string) {
    |s| > 1 && s[0] == '0'
  }

  function KindOf(s: string): IdentifierType {
    if IsIdentifierNumeric(s) then Num else Alnum
  }

  /** The prerelease identifier the parser builds from the text `s`. */
  function Classify(s: string): PrereleaseIdentifier {
    PrereleaseIdentifier(s, KindOf(s))
  }

  /** What the parser guarantees of every prerelease identifier it emits. */
  predicate ValidPrerelease(id: PrereleaseIdentifier) {
    && IsIdentifier(id.text)
    && id.kind == KindOf(id.text)
    && !(id.kind == Num && HasLeadingZero(id.text))
  }

  predicate ValidPrereleases(ids: seq<PrereleaseIdentifier>) {
    forall i :: 0 <= i < |ids| ==> ValidPrerelease(ids[i])
  }

  predicate ValidBuilds(ids: seq<string>) {
    forall i :: 0 <= i < |ids| ==> IsIdentifier(ids[i])
  }

  /** The invariant of every successfully parsed version. */
  predicate WellFormed(v: VersionData) {
    ValidPrereleases(v.prereleaseIds) && ValidBuilds(v.buildIds)
  }

  /** What the comparator needs: every identifier tagged Num has digit text `stoi` accepts. */
  predicate NumericTextOk(id: PrereleaseIdentifier) {
    id.kind == Num ==> |id.text| > 0 && AllDigits(id.text)
  }

  predicate AllNumericTextOk(ids: seq<PrereleaseIdentifier>) {
    forall i :: 0 <= i < |ids| ==> NumericTextOk(ids[i])
  }

  predicate Comparable(v: VersionData) {
    AllNumericTextOk(v.prereleaseIds)
  }

  /** The texts of a list of prerelease identifiers, kinds dropped. */
  function Texts(ids: seq<PrereleaseIdentifier>): (r: seq<string>)
    ensures |r| == |ids|
    ensures forall i :: 0 <= i < |ids| ==> r[i] == ids[i].text
  {
    seq(|ids|, i requires 0 <= i < |ids| => ids[i].text)
  }

  lemma WellFormedIsComparable(v: VersionData)
    requires WellFormed(v)
    ensures Comparable(v)
  {
    forall i | 0 <= i < |v.prereleaseIds|
      ensures NumericTextOk(v.prereleaseIds[i])
    {
      assert ValidPrerelease(v.prereleaseIds[i]);
    }
  }
}
