/**
 * The legacy `extractPublicIdFromCloudinaryUrl` of src/utils/cloudinary.ts:
 * split the URL on every `/upload/`, take the second part, drop its first
 * path segment whatever it is, and cut at the last `.` with
 * `substring(0, lastIndexOf('.'))`, which gives `""` when there is no dot.
 */
module LegacyCloudinary {
  import opened Wrappers
  import opened JsText
  import Cloudinary

  /** `imageUrl.split('/upload/')[1]`: the text between the first and the second `/upload/` */
  function SecondPart(url: string): (r: Option<string>)
    ensures r.None? <==> !Contains(url, Cloudinary.Pivot)
    ensures r.Some? ==> !Contains(r.value, Cloudinary.Pivot)
    ensures r.Some? ==> var tail := Cloudinary.AfterPivot(url).value; r.value <= tail
    ensures r.Some? && !Contains(Cloudinary.AfterPivot(url).value, Cloudinary.Pivot) ==> r.value == Cloudinary.AfterPivot(url).value
  {
    match Cloudinary.AfterPivot(url)
    case None => None
    case Some(tail) =>
      match IndexOf(tail, Cloudinary.Pivot)
      case None => Some(tail)
      case Some(j) =>
        NoPivotBeforeFirst(tail, j);
        Some(tail[..j])
  }

  lemma NoPivotBeforeFirst(s: string, j: nat)
    requires IndexOf(s, Cloudinary.Pivot) == Some(j)
    ensures !Contains(s[..j], Cloudinary.Pivot)
  {
    forall k ensures !OccursAt(s[..j], Cloudinary.Pivot, k) {
      if OccursAt(s[..j], Cloudinary.Pivot, k) {
        assert s[..j][k..k + |Cloudinary.Pivot|] == s[k..k + |Cloudinary.Pivot|];
        assert OccursAt(s, Cloudinary.Pivot, k);
      }
    }
  }

  /** `s.substring(0, s.lastIndexOf('.'))`: a negative end counts as 0 */
  function CutAtLastDot(s: string): (r: string)
    ensures '.' !in s ==> r == ""
    ensures '.' in s ==> r == Cloudinary.WithoutExtension(s)
  {
    match LastIndexOfChar(s, '.')
    case None => ""
    case Some(i) => s[..i]
  }

  /** what the legacy extractor returns */
  function LegacyPublicIdOf(url: string): (r: Option<string>)
    ensures r.None? <==> !Contains(url, Cloudinary.Pivot)
  {
    match SecondPart(url)
    case None => None
    case Some(path) => Some(CutAtLastDot(Join(Split(path, '/')[1..], '/')))
  }

  /** The first segment is dropped whether or not it is a version. */
  lemma FirstSegmentAlwaysDropped(url: string, first: string, rest: string)
    requires SecondPart(url) == Some(first + "/" + rest)
    requires '/' !in first
    ensures LegacyPublicIdOf(url) == Some(CutAtLastDot(rest))
  {
    SplitCons(first, '/', rest);
    assert Split(first + "/" + rest, '/')[1..] == Split(rest, '/');
    JoinSplit(rest, '/');
  }

  /** A path of one segment leaves nothing: the id is empty. */
  lemma SingleSegmentIsEmpty(url: string)
    requires SecondPart(url).Some? && '/' !in SecondPart(url).value
    ensures LegacyPublicIdOf(url) == Some("")
  {
    var path := SecondPart(url).value;
    assert Split(path, '/') == [path];
  }

  /**
   * On a versioned file path with an extension and nothing after it, the
   * legacy and the shared extractors agree.
   */
  lemma AgreesWithSharedOnVersionedFile(url: string, version: string, file: string)
    requires Cloudinary.AfterPivot(url) == Some(version + "/" + file)
    requires !Contains(version + "/" + file, Cloudinary.Pivot)
    requires Cloudinary.IsVersion(version) && '/' !in version
    requires '/' !in file && '.' in file
    ensures LegacyPublicIdOf(url) == Cloudinary.PublicIdOf(url) == Some(Cloudinary.WithoutExtension(file))
  {
    assert SecondPart(url) == Some(version + "/" + file);
    FirstSegmentAlwaysDropped(url, version, file);
    Cloudinary.PublicIdFromTail(url, version + "/" + file);
    SharedOnVersionedFile(version, file);
  }

  /** The shared extractor drops the version and keeps the file, without its extension. */
  lemma SharedOnVersionedFile(version: string, file: string)
    requires Cloudinary.IsVersion(version) && '/' !in version
    requires '/' !in file && '.' in file
    ensures Cloudinary.PublicIdOfTail(version + "/" + file) == Cloudinary.WithoutExtension(file)
  {
    SplitCons(version, '/', file);
    assert Split(file, '/') == [file];
    assert Cloudinary.DropVersion([version, file]) == [file];
    Cloudinary.FileKept(file);
  }

  /** Without an extension they disagree: the shared extractor keeps the name, the legacy one gives `""`. */
  lemma DisagreesWithoutExtension(url: string, version: string, name: string)
    requires Cloudinary.AfterPivot(url) == Some(version + "/" + name)
    requires !Contains(version + "/" + name, Cloudinary.Pivot)
    requires Cloudinary.IsVersion(version) && '/' !in version
    requires '/' !in name && '.' !in name && ',' !in name && '_' !in name
    ensures LegacyPublicIdOf(url) == Some("")
    ensures Cloudinary.PublicIdOf(url) == Some(name)
  {
    FirstSegmentAlwaysDropped(url, version, name);
    SplitCons(version, '/', name);
    assert Split(name, '/') == [name];
    assert Cloudinary.DropVersion([version, name]) == [name];
    assert Cloudinary.DropLeading([name]) == [name];
  }
}
