/**
 * Two comparisons of Forge versions, written apart in the broker and meant to agree: the one
 * that decides whether a certification is stale, and the one the instruction directory shows.
 */
module Versions {
  import opened Text
  import opened Wrappers

  type Version = string

  datatype Sensitivity = Major | MajorMinor | MajorMinorPatch

  function Pieces(version: Version): (pieces: seq<string>)
    ensures |pieces| > 0
  {
    Split(version, '.')
  }

  predicate IsDigits(piece: string) {
    piece != "" && forall i :: 0 <= i < |piece| ==> '0' <= piece[i] <= '9'
  }

  function ToNat(piece: string): nat
    requires IsDigits(piece)
  {
    var last := piece[|piece| - 1] as int - '0' as int;
    if |piece| == 1 then last else 10 * ToNat(piece[..|piece| - 1]) + last
  }

  predicate Pinned(version: Version) {
    |Pieces(version)| == 3 && forall i :: 0 <= i < 3 ==> IsDigits(Pieces(version)[i])
  }

  /** A pinned version's three numbers. */
  function Parts(version: Version): (parts: seq<nat>)
    requires Pinned(version)
    ensures |parts| == 3
  {
    var pieces := Pieces(version);
    [ToNat(pieces[0]), ToNat(pieces[1]), ToNat(pieces[2])]
  }

  function Depth(sensitivity: Sensitivity): (depth: nat)
    ensures 1 <= depth <= 3
  {
    match sensitivity
    case Major => 1
    case MajorMinor => 2
    case MajorMinorPatch => 3
  }

  datatype VersionError = NotPinned(version: Version)

  /** Whether a Forge on `current` has outrun a certification earned on `certified`; refuses an unpinned version. */
  function ForgeVersionStale(certified: Version, current: Version, sensitivity: Sensitivity)
    : Result<bool, VersionError>
  {
    if !Pinned(certified) then Err(NotPinned(certified))
    else if !Pinned(current) then Err(NotPinned(current))
    else Ok(Parts(certified)[..Depth(sensitivity)] != Parts(current)[..Depth(sensitivity)])
  }

  /** The directory's reading of one piece: anything that is not a number counts as 0. */
  function LoosePiece(piece: string): nat {
    if IsDigits(piece) then ToNat(piece) else 0
  }

  /** The directory's reading of a version: cut or padded with zeros to three numbers. */
  function LooseParts(version: Version): (parts: seq<nat>)
    ensures |parts| == 3
  {
    var pieces := Pieces(version);
    var read := seq(|pieces|, i requires 0 <= i < |pieces| => LoosePiece(pieces[i]));
    (read + [0, 0, 0])[..3]
  }

  datatype Moved = Moved(authoredAgainst: Version, current: Version, sensitivity: Option<Sensitivity>)

  /** The directory's question: the reason the Forge has moved past what was authored, or None. */
  function ForgeMovedPast(authored: Option<Version>, current: Option<Version>, sensitivity: Option<Sensitivity>)
    : Option<Moved>
  {
    if authored.None? || authored.value == "" || current.None? || current.value == "" || authored == current then None
    else
      var depth := Depth(if sensitivity.Some? then sensitivity.value else MajorMinor);
      if LooseParts(authored.value)[..depth] != LooseParts(current.value)[..depth]
      then Some(Moved(authored.value, current.value, sensitivity)) else None
  }

  /** A number in decimal. */
  function Spell(n: nat): (digits: string)
    ensures IsDigits(digits)
  {
    var last := ['0' as int as char + (n % 10) as char];
    if n < 10 then last else Spell(n / 10) + last
  }

  lemma {:induction false} ToNatReadsSpell(n: nat)
    ensures ToNat(Spell(n)) == n
  {
    if n >= 10 {
      ToNatReadsSpell(n / 10);
      assert Spell(n)[..|Spell(n)| - 1] == Spell(n / 10);
    }
  }

  lemma JoinThree(pieces: seq<string>)
    requires |pieces| == 3
    ensures Join(pieces, '.') == pieces[0] + "." + pieces[1] + "." + pieces[2]
  {
    var a, b, c := pieces[0], pieces[1], pieces[2];
    assert pieces[1..] == [b, c] && [b, c][1..] == [c];
    assert Join([b, c], '.') == b + ['.'] + c;
    assert Join(pieces, '.') == a + ['.'] + (b + ['.'] + c);
  }

  /** A version is pinned when it is three runs of digits with a dot between, and only then. */
  lemma PinnedIsThreeNumbers(version: Version)
    ensures Pinned(version) <==>
            exists a, b, c :: IsDigits(a) && IsDigits(b) && IsDigits(c) && version == a + "." + b + "." + c
  {
    if Pinned(version) {
      var pieces := Pieces(version);
      JoinUndoesSplit(version, '.');
      JoinThree(pieces);
      assert IsDigits(pieces[0]) && IsDigits(pieces[1]) && IsDigits(pieces[2]);
    }
    if a, b, c :| IsDigits(a) && IsDigits(b) && IsDigits(c) && version == a + "." + b + "." + c {
      SplitThree(a, b, c);
    }
  }

  lemma SplitThree(a: string, b: string, c: string)
    requires '.' !in a && '.' !in b && '.' !in c
    ensures Pieces(a + "." + b + "." + c) == [a, b, c]
  {
    SplitAt(c, "", '.');
    SplitAt(b, c, '.');
    SplitAt(a, b + "." + c, '.');
    assert a + "." + b + "." + c == a + ['.'] + (b + ['.'] + c);
  }

  function Release(major: nat, minor: nat, patch: nat): Version {
    Spell(major) + "." + Spell(minor) + "." + Spell(patch)
  }

  lemma ReleaseReads(major: nat, minor: nat, patch: nat)
    ensures Pinned(Release(major, minor, patch)) && Parts(Release(major, minor, patch)) == [major, minor, patch]
  {
    SplitThree(Spell(major), Spell(minor), Spell(patch));
    ToNatReadsSpell(major);
    ToNatReadsSpell(minor);
    ToNatReadsSpell(patch);
  }

  /** The documented table, for every pair of releases: each sensitivity looks that far and no further. */
  lemma StaleAtItsDepth(a: nat, b: nat, c: nat, x: nat, y: nat, z: nat)
    ensures ForgeVersionStale(Release(a, b, c), Release(x, y, z), Major) == Ok(a != x)
    ensures ForgeVersionStale(Release(a, b, c), Release(x, y, z), MajorMinor) == Ok(a != x || b != y)
    ensures ForgeVersionStale(Release(a, b, c), Release(x, y, z), MajorMinorPatch) == Ok(a != x || b != y || c != z)
  {
    ReleaseReads(a, b, c);
    ReleaseReads(x, y, z);
    assert [a, b, c][..1] == [a] && [x, y, z][..1] == [x];
    assert [a, b, c][..2] == [a, b] && [x, y, z][..2] == [x, y];
    assert [a, b, c][..3] == [a, b, c] && [x, y, z][..3] == [x, y, z];
  }

  /** The directory looks as far, to the minor number where no sensitivity is given, and reports what it compared. */
  lemma MovedAtItsDepth(a: nat, b: nat, c: nat, x: nat, y: nat, z: nat, sensitivity: Option<Sensitivity>)
    ensures var moved := ForgeMovedPast(Some(Release(a, b, c)), Some(Release(x, y, z)), sensitivity);
            && (moved.Some? <==> a != x || (sensitivity != Some(Major) && b != y)
                                 || (sensitivity == Some(MajorMinorPatch) && c != z))
            && (moved.Some? ==> moved.value == Moved(Release(a, b, c), Release(x, y, z), sensitivity))
  {
    ReleaseReads(a, b, c);
    ReleaseReads(x, y, z);
    LooseReadsPinned(Release(a, b, c));
    LooseReadsPinned(Release(x, y, z));
    StaleAtItsDepth(a, b, c, x, y, z);
    assert [a, b, c][..1] == [a] && [x, y, z][..1] == [x];
    assert [a, b, c][..2] == [a, b] && [x, y, z][..2] == [x, y];
    assert [a, b, c][..3] == [a, b, c] && [x, y, z][..3] == [x, y, z];
  }

  /** It says nothing of a version nobody gave, pads a short one, and reads a piece that is no number as zero. */
  lemma DirectoryIsLoose(version: Option<Version>, sensitivity: Option<Sensitivity>, major: nat, word: string)
    requires '.' !in word && !IsDigits(word)
    ensures ForgeMovedPast(None, version, sensitivity) == None && ForgeMovedPast(version, None, sensitivity) == None
    ensures ForgeMovedPast(Some(""), version, sensitivity) == None
    ensures ForgeMovedPast(version, Some(""), sensitivity) == None
    ensures ForgeMovedPast(Some(Spell(major)), Some(Release(major, 0, 0)), sensitivity) == None
    ensures ForgeMovedPast(Some(Spell(major) + "." + word), Some(Release(major, 0, 0)), sensitivity) == None
  {
    SplitAt(Spell(major), "", '.');
    ToNatReadsSpell(major);
    assert LooseParts(Spell(major)) == [major, 0, 0];
    ReleaseReads(major, 0, 0);
    LooseReadsPinned(Release(major, 0, 0));
    SplitAt(word, "", '.');
    SplitAt(Spell(major), word, '.');
    assert Spell(major) + "." + word == Spell(major) + ['.'] + word;
    assert Pieces(Spell(major) + "." + word) == [Spell(major), word];
    assert LooseParts(Spell(major) + "." + word) == [major, 0, 0];
  }

  lemma LooseReadsPinned(version: Version)
    requires Pinned(version)
    ensures version != "" && LooseParts(version) == Parts(version)
  {
    assert forall i :: 0 <= i < 3 ==> LooseParts(version)[i] == LoosePiece(Pieces(version)[i]);
  }

  /** On pinned versions the two comparisons give one answer at every sensitivity. */
  lemma ComparisonsAgree(authored: Version, current: Version, sensitivity: Sensitivity)
    requires Pinned(authored) && Pinned(current)
    ensures ForgeVersionStale(authored, current, sensitivity).Ok?
    ensures ForgeVersionStale(authored, current, sensitivity).value
            <==> ForgeMovedPast(Some(authored), Some(current), Some(sensitivity)).Some?
  {
    LooseReadsPinned(authored);
    LooseReadsPinned(current);
  }

  lemma TwoPieces()
    ensures Pieces("2.1") == ["2", "1"] && Pieces("2.1.0") == ["2", "1", "0"]
  {
    SplitAt("2", "1", '.');
    SplitAt("1", "0", '.');
    SplitAt("2", "1.0", '.');
    SplitAt("1", "", '.');
    SplitAt("0", "", '.');
    assert "2" + "." + "1" == "2.1" && "1" + "." + "0" == "1.0" && "2" + "." + "1.0" == "2.1.0";
  }

  /** Off them they part: the staleness check refuses exactly an unpinned version, the directory refuses none. */
  lemma OnlyOneRefuses()
    ensures forall a, b, s :: ForgeVersionStale(a, b, s).Err? <==> !Pinned(a) || !Pinned(b)
    ensures ForgeVersionStale("2.1", "2.1.0", MajorMinor).Err?
    ensures ForgeMovedPast(Some("2.1"), Some("2.1.0"), Some(MajorMinor)) == None
  {
    TwoPieces();
    assert LooseParts("2.1") == [2, 1, 0] == LooseParts("2.1.0");
  }

  predicate Fresh(certified: Version, current: Version, sensitivity: Sensitivity) {
    ForgeVersionStale(certified, current, sensitivity) == Ok(false)
  }

  /** Freshness is an equivalence on pinned versions: a downgrade is as stale as the upgrade it undoes. */
  lemma FreshnessIsAnEquivalence(a: Version, b: Version, c: Version, sensitivity: Sensitivity)
    ensures Fresh(a, a, sensitivity) <==> Pinned(a)
    ensures Fresh(a, b, sensitivity) ==> Fresh(b, a, sensitivity)
    ensures Fresh(a, b, sensitivity) && Fresh(b, c, sensitivity) ==> Fresh(a, c, sensitivity)
  {
  }

  /** A finer sensitivity only adds stale pairs. */
  lemma StalenessIsMonotone(a: Version, b: Version, coarse: Sensitivity, fine: Sensitivity)
    requires Depth(coarse) <= Depth(fine) && Fresh(a, b, fine)
    ensures Fresh(a, b, coarse)
  {
    var n, m := Depth(coarse), Depth(fine);
    assert Parts(a)[..m][..n] == Parts(a)[..n] && Parts(b)[..m][..n] == Parts(b)[..n];
  }
}
