/**
 * `extractPublicIdFromCloudinaryUrl` of src/shared/middlewares/cloudinary.ts:
 * the public id of an uploaded image is the path after the first
 * `/upload/`, without a leading version segment (`v` and digits), without
 * leading transformation-like segments, and without the file extension.
 *
 * As written, the loop that drops transformation segments drops every
 * leading segment containing `,` or `_` and no `.`, so a folder such as
 * `team4_images` is dropped too. `ExtractPublicIdFromCloudinaryUrl` and
 * `PublicIdOf` model the code as written; `IntendedPublicIdOf` drops only
 * segments made of Cloudinary transformation parameters.
 */
module Cloudinary {
  import opened Wrappers
  import opened JsText

  const Pivot := "/upload/"

  /** the text after the first `/upload/`, `None` when there is none */
  function AfterPivot(url: string): (r: Option<string>)
    ensures r.None? <==> !Contains(url, Pivot)
    ensures r.Some? ==> OccursAt(url, Pivot, |url| - |r.value| - |Pivot|) && r.value == url[|url| - |r.value|..]
    ensures r.Some? ==> forall k :: 0 <= k < |url| - |r.value| - |Pivot| ==> !OccursAt(url, Pivot, k)
  {
    match IndexOf(url, Pivot)
    case None => None
    case Some(i) => Some(url[i + |Pivot|..])
  }

  /** `segments[0].startsWith('v') && /^\d+$/.test(segments[0].slice(1))` */
  predicate IsVersion(segment: string) {
    StartsWith(segment, "v") && AllDigits(segment[1..])
  }

  /** `/[,_]/.test(segment) && !segment.includes('.')` */
  predicate LooksLikeTransformation(segment: string) {
    (',' in segment || '_' in segment) && '.' !in segment
  }

  /** the `if` that shifts a version segment, at most once */
  function DropVersion(segments: seq<string>): (r: seq<string>)
    requires |segments| >= 1
    ensures r == segments || (IsVersion(segments[0]) && r == segments[1..])
  {
    if IsVersion(segments[0]) then segments[1..] else segments
  }

  /** the `while` that shifts leading transformation-like segments */
  function DropLeading(segments: seq<string>): seq<string> {
    if segments != [] && LooksLikeTransformation(segments[0]) then DropLeading(segments[1..]) else segments
  }

  /** The loop leaves a suffix that starts with a kept segment, having dropped only transformation-like ones. */
  lemma {:induction false} DropLeadingIsSuffix(segments: seq<string>)
    ensures var r := DropLeading(segments);
            && |r| <= |segments| && r == segments[|segments| - |r|..]
            && (r == [] || !LooksLikeTransformation(r[0]))
            && forall k :: 0 <= k < |segments| - |r| ==> LooksLikeTransformation(segments[k])
  {
    if segments != [] && LooksLikeTransformation(segments[0]) {
      DropLeadingIsSuffix(segments[1..]);
      var r := DropLeading(segments);
      assert segments[1..][|segments| - 1 - |r|..] == segments[|segments| - |r|..];
      forall k | 0 <= k < |segments| - |r| ensures LooksLikeTransformation(segments[k]) {
        if k > 0 {
          assert segments[k] == segments[1..][k - 1];
        }
      }
    }
  }

  /** `lastDotIndex > -1 ? joined.slice(0, lastDotIndex) : joined` */
  function WithoutExtension(s: string): (r: string)
    ensures '.' !in s ==> r == s
    ensures '.' in s ==> |r| < |s| && r == s[..|r|] && s[|r|] == '.' && '.' !in s[|r| + 1..]
  {
    match LastIndexOfChar(s, '.')
    case None => s
    case Some(i) => s[..i]
  }

  /** the public id read from the text after `/upload/` */
  function PublicIdOfTail(tail: string): string {
    WithoutExtension(Join(DropLeading(DropVersion(Split(tail, '/'))), '/'))
  }

  /** what `extractPublicIdFromCloudinaryUrl` returns, as written */
  function PublicIdOf(url: string): (r: Option<string>)
    ensures r.None? <==> !Contains(url, Pivot)
  {
    match AfterPivot(url)
    case None => None
    case Some(tail) => Some(PublicIdOfTail(tail))
  }

  /** `extractPublicIdFromCloudinaryUrl`: `segments` is the array the code shifts */
  method ExtractPublicIdFromCloudinaryUrl(imageUrl: string) returns (r: Option<string>)
    ensures r == PublicIdOf(imageUrl)
  {
    var uploadIndex := IndexOf(imageUrl, Pivot);
    if uploadIndex.None? {
      return None;
    }
    var tail := imageUrl[uploadIndex.value + |Pivot|..];
    var segments := Split(tail, '/');
    if IsVersion(segments[0]) {
      segments := segments[1..];
    }
    ghost var afterVersion := segments;
    while |segments| > 0 && LooksLikeTransformation(segments[0])
      invariant DropLeading(segments) == DropLeading(afterVersion)
      decreases |segments|
    {
      segments := segments[1..];
    }
    var joined := Join(segments, '/');
    var lastDotIndex := LastIndexOfChar(joined, '.');
    r := Some(if lastDotIndex.Some? then joined[..lastDotIndex.value] else joined);
  }

  // ---------------------------------------------------------------- properties

  /** a path of three segments splits into them */
  lemma SplitThree(a: string, b: string, c: string)
    requires '/' !in a && '/' !in b && '/' !in c
    ensures Split(a + "/" + b + "/" + c, '/') == [a, b, c]
  {
    assert a + "/" + b + "/" + c == a + "/" + (b + "/" + c);
    SplitCons(a, '/', b + "/" + c);
    SplitCons(b, '/', c);
    assert Split(c, '/') == [c];
  }

  /** A version segment has no `,` or `_`, so the loop keeps it. */
  lemma VersionIsKept(segment: string)
    requires IsVersion(segment)
    ensures !LooksLikeTransformation(segment)
  {
    forall k | 0 <= k < |segment| ensures segment[k] != ',' && segment[k] != '_' {
      if k > 0 {
        assert segment[k] == segment[1..][k - 1];
      }
    }
  }

  lemma JoinCons(a: string, rest: seq<string>)
    requires |rest| >= 1
    ensures Join([a] + rest, '/') == a + "/" + Join(rest, '/')
  {
    assert ([a] + rest)[1..] == rest;
  }

  /** Cutting at the last dot of `a + "/" + b` cuts `b` when `b` holds a dot and `a` none. */
  lemma WithoutExtensionOfPath(a: string, b: string)
    requires '.' in b && '.' !in a
    ensures WithoutExtension(a + "/" + b) == a + "/" + WithoutExtension(b)
  {
    var s := a + "/" + b;
    var rb := WithoutExtension(b);
    var r := WithoutExtension(s);
    assert '.' in s by {
      var j :| 0 <= j < |b| && b[j] == '.';
      assert s[|a| + 1 + j] == '.';
    }
    var n := |a| + 1 + |rb|;
    assert s[n] == '.';
    assert s[n + 1..] == b[|rb| + 1..];
    assert r == s[..n];
    assert s[..n] == a + "/" + rb;
  }

  /** The dot before the extension is the last one: `name.ext` loses exactly `.ext`. */
  lemma WithoutExtensionOfName(name: string, ext: string)
    requires '.' !in ext
    ensures WithoutExtension(name + "." + ext) == name
  {
    var s := name + "." + ext;
    assert s[|name|] == '.';
    assert s[|name| + 1..] == ext;
    var r := WithoutExtension(s);
  }

  /** Where the URL has no `d`, `/upload/` cannot start at `k`. */
  lemma NoPivotAt(url: string, k: int)
    requires 'd' !in url
    ensures !OccursAt(url, Pivot, k)
  {
    if 0 <= k && k + |Pivot| <= |url| {
      assert url[k..k + |Pivot|][6] == url[k + 6];
    }
  }

  /** A URL without `/upload/` has no public id. */
  lemma NoPivotNoPublicId(url: string)
    requires 'd' !in url
    ensures PublicIdOf(url) == None
  {
    forall k ensures !OccursAt(url, Pivot, k) {
      NoPivotAt(url, k);
    }
  }

  /** `https://example.com/image.png` yields `null`. */
  lemma ForeignUrlYieldsNull()
    ensures PublicIdOf("https://example.com/image.png") == None
  {
    NoPivotNoPublicId("https://example.com/image.png");
  }

  /** The public id is read from the text after the first `/upload/`. */
  lemma PublicIdFromTail(url: string, tail: string)
    requires AfterPivot(url) == Some(tail)
    ensures PublicIdOf(url) == Some(PublicIdOfTail(tail))
  {
  }

  /** `v1/v2/rest` splits into `v1`, `v2` and the parts of `rest`. */
  lemma SplitTwoThen(v1: string, v2: string, rest: string)
    requires '/' !in v1 && '/' !in v2
    ensures Split(v1 + "/" + v2 + "/" + rest, '/') == [v1, v2] + Split(rest, '/')
  {
    assert v1 + "/" + v2 + "/" + rest == v1 + "/" + (v2 + "/" + rest);
    SplitCons(v1, '/', v2 + "/" + rest);
    SplitCons(v2, '/', rest);
  }

  /** After one version is shifted, a second version is not a transformation and stays. */
  lemma SecondVersionStays(v1: string, v2: string, parts: seq<string>)
    requires IsVersion(v1) && IsVersion(v2)
    ensures DropLeading(DropVersion([v1, v2] + parts)) == [v2] + parts
  {
    assert ([v1, v2] + parts)[1..] == [v2] + parts;
    VersionIsKept(v2);
  }

  /** Joining `v2` and the parts of `rest` gives `v2/rest`. */
  lemma JoinBack(v2: string, rest: string)
    ensures Join([v2] + Split(rest, '/'), '/') == v2 + "/" + rest
  {
    JoinCons(v2, Split(rest, '/'));
    JoinSplit(rest, '/');
  }

  lemma VersionDroppedOnceFromTail(v1: string, v2: string, rest: string)
    requires IsVersion(v1) && IsVersion(v2) && '/' !in v1 && '/' !in v2
    ensures PublicIdOfTail(v1 + "/" + v2 + "/" + rest) == WithoutExtension(v2 + "/" + rest)
  {
    SplitTwoThen(v1, v2, rest);
    SecondVersionStays(v1, v2, Split(rest, '/'));
    JoinBack(v2, rest);
  }

  /**
   * Only one version segment is dropped: after `v1/v2/`, the second
   * version is part of the id.
   */
  lemma VersionDroppedOnce(url: string, v1: string, v2: string, rest: string)
    requires AfterPivot(url) == Some(v1 + "/" + v2 + "/" + rest)
    requires IsVersion(v1) && IsVersion(v2) && '/' !in v1 && '/' !in v2
    ensures PublicIdOf(url) == Some(WithoutExtension(v2 + "/" + rest))
  {
    PublicIdFromTail(url, v1 + "/" + v2 + "/" + rest);
    VersionDroppedOnceFromTail(v1, v2, rest);
  }

  /**
   * As written, a folder named like `team4_images` after the version is
   * dropped with the transformations: the id is the bare file name.
   */
  lemma FolderDroppedAsWritten(url: string, version: string, folder: string, name: string, ext: string)
    requires AfterPivot(url) == Some(version + "/" + folder + "/" + (name + "." + ext))
    requires IsVersion(version) && '/' !in version
    requires LooksLikeTransformation(folder) && '/' !in folder
    requires '/' !in name && '.' !in name && '/' !in ext && '.' !in ext
    ensures PublicIdOf(url) == Some(name)
  {
    var file := name + "." + ext;
    PublicIdFromTail(url, version + "/" + folder + "/" + file);
    assert '/' !in file && '.' in file by { assert file[|name|] == '.'; }
    FolderDroppedFromTail(version, folder, file);
    WithoutExtensionOfName(name, ext);
  }

  /** Of `version`, a transformation-like folder and a file, only the file is left. */
  lemma OnlyFileLeft(version: string, folder: string, file: string)
    requires IsVersion(version) && LooksLikeTransformation(folder) && '.' in file
    ensures DropLeading(DropVersion([version, folder, file])) == [file]
  {
    var segments := [version, folder, file];
    assert DropVersion(segments) == [folder, file] by {
      assert segments[1..] == [folder, file];
    }
    ShiftedOnce(folder, file);
    FileKept(file);
  }

  lemma ShiftedOnce(folder: string, file: string)
    requires LooksLikeTransformation(folder)
    ensures DropLeading([folder, file]) == DropLeading([file])
  {
    assert [folder, file][1..] == [file];
  }

  lemma FileKept(file: string)
    requires '.' in file
    ensures DropLeading([file]) == [file]
  {
    assert !LooksLikeTransformation(file);
  }

  lemma FolderDroppedFromTail(version: string, folder: string, file: string)
    requires IsVersion(version) && '/' !in version
    requires LooksLikeTransformation(folder) && '/' !in folder
    requires '/' !in file && '.' in file
    ensures PublicIdOfTail(version + "/" + folder + "/" + file) == WithoutExtension(file)
  {
    SplitThree(version, folder, file);
    OnlyFileLeft(version, folder, file);
    assert Join([file], '/') == file;
  }

  /** the tail of the example URL of the shared module's own tests, `v1/team4_images/test.png` */
  const TestTail := "v1" + "/" + "team4_images" + "/" + ("test" + "." + "png")
  const TestUrl := Pivot + TestTail

  lemma TestUrlTail()
    ensures AfterPivot(TestUrl) == Some(TestTail)
    ensures IsVersion("v1") && '_' in "team4_images" && '.' !in "team4_images" && '/' !in "team4_images"
  {
    assert IndexOf(TestUrl, Pivot) == Some(0) by { assert TestUrl[..|Pivot|] == Pivot; }
    assert TestUrl[|Pivot|..] == TestTail;
    assert IsVersion("v1") by { assert "v1"[1..] == "1"; }
    assert "team4_images"[5] == '_';
  }

  /** The URL of the shared module's own test: the folder is lost. */
  lemma TestUrlLosesFolder()
    ensures PublicIdOf(TestUrl) == Some("test")
  {
    TestUrlTail();
    FolderDroppedAsWritten(TestUrl, "v1", "team4_images", "test", "png");
  }

  // ---------------------------------------------------------------- intended

  predicate IsLowerAscii(c: char) {
    'a' <= c <= 'z'
  }

  /** one transformation parameter, such as `c_fill` or `w_200`: a short lower-case key, `_`, a value */
  predicate IsTransformationParam(p: string) {
    exists n :: 1 <= n <= 3 && n + 1 < |p| && p[n] == '_' && forall k :: 0 <= k < n ==> IsLowerAscii(p[k])
  }

  /** a segment made of comma-separated transformation parameters and no `.` */
  predicate IsTransformation(segment: string) {
    && '.' !in segment
    && var params := Split(segment, ',');
       forall k :: 0 <= k < |params| ==> IsTransformationParam(params[k])
  }

  /** the loop as intended: shift only real transformation segments */
  function DropTransformations(segments: seq<string>): (r: seq<string>)
    ensures |r| <= |segments| && r == segments[|segments| - |r|..]
    ensures r == [] || !IsTransformation(r[0])
    ensures forall k :: 0 <= k < |segments| - |r| ==> IsTransformation(segments[k])
  {
    if segments != [] && IsTransformation(segments[0]) then DropTransformations(segments[1..]) else segments
  }

  /** the public id as the documentation and the tests describe it: folders are kept */
  function IntendedPublicIdOf(url: string): (r: Option<string>)
    ensures r.None? <==> !Contains(url, Pivot)
  {
    match AfterPivot(url)
    case None => None
    case Some(tail) => Some(WithoutExtension(Join(DropTransformations(DropVersion(Split(tail, '/'))), '/')))
  }

  /** A folder that is not a transformation stays in the id, with only the extension cut. */
  lemma FolderKeptAsIntended(url: string, version: string, folder: string, file: string)
    requires AfterPivot(url) == Some(version + "/" + folder + "/" + file)
    requires IsVersion(version) && '/' !in version
    requires !IsTransformation(folder) && '/' !in folder && '.' !in folder
    requires '/' !in file && '.' in file
    ensures IntendedPublicIdOf(url) == Some(folder + "/" + WithoutExtension(file))
  {
    SplitThree(version, folder, file);
    var segments := [version, folder, file];
    assert DropVersion(segments) == [folder, file];
    JoinCons(folder, [file]);
    WithoutExtensionOfPath(folder, file);
  }

  /** `team4_images` is not a transformation: its key `team4` is too long. */
  lemma Team4ImagesIsFolder()
    ensures !IsTransformation("team4_images")
  {
    var s := "team4_images";
    assert ',' !in s;
    assert Split(s, ',') == [s];
    assert !IsTransformationParam(s) by {
      assert s[1] == 'e' && s[2] == 'a' && s[3] == 'm';
    }
    assert Split(s, ',')[0] == s;
  }

  /** The test URL keeps its folder under the intended reading. */
  lemma TestUrlKeepsFolderAsIntended()
    ensures IntendedPublicIdOf(TestUrl) == Some("team4_images" + "/" + "test")
  {
    TestUrlTail();
    Team4ImagesIsFolder();
    var file := "test" + "." + "png";
    assert file[4] == '.';
    FolderKeptAsIntended(TestUrl, "v1", "team4_images", file);
    WithoutExtensionOfName("test", "png");
  }
}
