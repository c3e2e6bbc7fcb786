/**
 * `getImageUrl` (services/api.ts): resolving an image reference to a URL the
 * browser can load. A plain string is kept when absolute and prefixed with the
 * API origin otherwise; an upload document is resolved from its Cloudinary
 * `secure_url`, else its `thumbnailURL`, else its `url`. The two Cloudinary
 * fields get the automatic format/quality transformation inserted right after
 * their `/upload/` segment, each under a slightly different rule.
 */
module ImageUrl {
  import opened Wrappers
  import opened Text
  import opened Api

  const UploadSegment: string := "/upload/"
  const Transformation: string := "f_auto,q_auto/"

  // ---------------------------------------------------------------------
  // The origin that relative paths are resolved against

  /** `apiUrl.replace('/api', '')` as written: the FIRST `/api` is removed,
      wherever it is */
  function BaseUrlAsWritten(apiUrl: string): (r: string)
    ensures r == ReplaceFirst(apiUrl, "/api", "")
    ensures Free(apiUrl, "/api") ==> r == apiUrl
    ensures !Free(apiUrl, "/api") ==> |r| == |apiUrl| - 4
    ensures !Free(apiUrl, "/api") ==>
      var i := IndexOf(apiUrl, "/api"); r == apiUrl[..i] + apiUrl[i + 4..]
  {
    var i := IndexOf(apiUrl, "/api");
    if i == -1 then apiUrl else apiUrl[..i] + apiUrl[i + 4..]
  }

  /** The origin of an API root ending in `/api`: that suffix removed */
  function ApiOrigin(apiUrl: string): (r: string)
    ensures EndsWith(apiUrl, "/api") ==> r + "/api" == apiUrl
    ensures !EndsWith(apiUrl, "/api") ==> r == apiUrl
  {
    if EndsWith(apiUrl, "/api") then apiUrl[..|apiUrl| - 4] else apiUrl
  }

  /** No occurrence of `/api` can straddle the end of an origin followed by
      `/api`, since `/` appears in `/api` only at its start */
  lemma {:induction false} FirstApiAfterOrigin(origin: string)
    requires Free(origin, "/api")
    ensures IndexOf(origin + "/api", "/api") == |origin|
  {
    var s := origin + "/api";
    assert OccursAt(s, "/api", |origin|);
    forall j | 0 <= j < |origin| && j + 4 <= |s| ensures !OccursAt(s, "/api", j) {
      if j + 4 <= |origin| {
        assert s[j..j + 4] == origin[j..j + 4];
        assert !OccursAt(origin, "/api", j);
      } else {
        assert s[j..j + 4][|origin| - j] == s[|origin|] == '/';
      }
    }
  }

  /** When the origin holds no `/api` of its own, the code as written does
      strip exactly the suffix */
  lemma BaseUrlAsWrittenOnPlainOrigin(origin: string)
    requires Free(origin, "/api")
    ensures BaseUrlAsWritten(origin + "/api") == origin
    ensures ApiOrigin(origin + "/api") == origin
  {
    var s := origin + "/api";
    FirstApiAfterOrigin(origin);
    assert s[..|origin|] == origin && s[|origin| + 4..] == "";
    assert s[|s| - 4..] == "/api";
  }

  /** An API host whose name begins with `api` loses its own `/api` instead of
      the path suffix */
  lemma BaseUrlAsWrittenOnApiHost()
    ensures BaseUrlAsWritten("https://api.example.com/api") == "https:/.example.com/api"
    ensures ApiOrigin("https://api.example.com/api") == "https://api.example.com"
  {
    var s := "https://api.example.com/api";
    assert OccursAt(s, "/api", 7);
    forall j | 0 <= j < 7 ensures !OccursAt(s, "/api", j) {
      assert s[j..j + 4][0] == s[j] && s[j..j + 4][1] == s[j + 1];
      assert s[j] != '/' || s[j + 1] != 'a';
    }
    assert s[..7] + "" + s[11..] == "https:/.example.com/api";
    assert s[|s| - 4..] == "/api";
  }

  /** The configured API root: both readings give the same origin */
  lemma BaseUrlOfApiUrl()
    ensures BaseUrlAsWritten(ApiUrl) == ApiOrigin(ApiUrl) == "http://localhost:4000"
  {
    var origin := "http://localhost:4000";
    assert ApiUrl == origin + "/api";
    forall j | 0 <= j && j + 4 <= |origin| ensures !OccursAt(origin, "/api", j) {
      assert origin[j..j + 4][0] == origin[j] && origin[j..j + 4][1] == origin[j + 1];
      assert origin[j] != '/' || origin[j + 1] != 'a';
    }
    BaseUrlAsWrittenOnPlainOrigin(origin);
  }

  /** The origin relative image paths are prefixed with */
  function BaseUrl(): (r: string)
    ensures r == BaseUrlAsWritten(ApiUrl)
  {
    BaseUrlOfApiUrl();
    ApiOrigin(ApiUrl)
  }

  // ---------------------------------------------------------------------
  // Plain strings and the `url` field

  /** `s.startsWith('http') || s.startsWith('data:')` */
  predicate IsAbsolute(s: string) {
    StartsWith(s, "http") || StartsWith(s, "data:")
  }

  /** An absolute URL or data URI is kept; a relative path gets the origin */
  function ResolvePath(s: string): (r: string)
    ensures IsAbsolute(s) ==> r == s
    ensures !IsAbsolute(s) ==> r == BaseUrl() + s
  {
    if IsAbsolute(s) then s else BaseUrl() + s
  }

  // ---------------------------------------------------------------------
  // The Cloudinary transformation

  /** `r` is `u` with the transformation inserted after the `/upload/`
      segment that starts at `i` */
  ghost predicate InsertedAt(u: string, r: string, i: int) {
    OccursAt(u, UploadSegment, i) && r == u[..i + |UploadSegment|] + Transformation + u[i + |UploadSegment|..]
  }

  /** `u` has exactly one `/upload/` segment, at `i` */
  ghost predicate SingleUploadAt(u: string, i: int) {
    OccursAt(u, UploadSegment, i) && forall j :: OccursAt(u, UploadSegment, j) ==> j == i
  }

  /** Rewriting the first `/upload/v` to `/upload/f_auto,q_auto/v` is an
      insertion after that `/upload/` */
  lemma VersionedRewriteInserts(u: string)
    requires Includes(u, "/upload/v")
    ensures InsertedAt(u, ReplaceFirst(u, "/upload/v", "/upload/f_auto,q_auto/v"), IndexOf(u, "/upload/v"))
  {
    var i := IndexOf(u, "/upload/v");
    assert u[i..i + 8] == u[i..i + 9][..8] == UploadSegment;
    assert u[i + 8] == u[i..i + 9][8] == 'v';
    assert u[i + 8..] == "v" + u[i + 9..];
    InsertionForm(u, i);
    assert "/upload/f_auto,q_auto/v" == "/upload/f_auto,q_auto/" + "v";
  }

  /** The two ways the source spells the insertion agree */
  lemma InsertionForm(u: string, i: nat)
    requires OccursAt(u, UploadSegment, i)
    ensures u[..i] + "/upload/f_auto,q_auto/" + u[i + 8..] == u[..i + 8] + Transformation + u[i + 8..]
  {
    assert u[..i + 8] == u[..i] + u[i..i + 8];
  }

  /** Joining the two split pieces around the segment with the transformation
      is an insertion after the only non-overlapping `/upload/` */
  lemma SplitRewriteInserts(u: string)
    requires |Split(u, UploadSegment)| == 2
    ensures var parts := Split(u, UploadSegment);
      InsertedAt(u, parts[0] + "/upload/f_auto,q_auto/" + parts[1], |parts[0]|)
  {
    var parts := Split(u, UploadSegment);
    SplitTwo(u, UploadSegment);
    assert u[|parts[0]|..|parts[0]| + 8] == UploadSegment;
    assert u[..|parts[0]|] == parts[0] && u[|parts[0]| + 8..] == parts[1];
    InsertionForm(u, |parts[0]|);
  }

  /** `u` with the transformation inserted after its first `/upload/`
      segment, when it has one */
  function FirstInsertion(u: string): (r: string)
    ensures Includes(u, UploadSegment) ==> InsertedAt(u, r, IndexOf(u, UploadSegment))
    ensures !Includes(u, UploadSegment) ==> r == u
  {
    var i := IndexOf(u, UploadSegment);
    if i == -1 then u else u[..i + 8] + Transformation + u[i + 8..]
  }

  /** `split` puts the text before the first `/upload/` in its first piece,
      so joining the two pieces around the transformation is the insertion
      after that first segment */
  lemma SplitJoinIsFirstInsertion(u: string)
    requires |Split(u, UploadSegment)| == 2
    ensures var parts := Split(u, UploadSegment);
      parts[0] + "/upload/f_auto,q_auto/" + parts[1] == FirstInsertion(u)
  {
    var parts := Split(u, UploadSegment);
    var i := IndexOf(u, UploadSegment);
    SplitTwo(u, UploadSegment);
    assert i != -1;
    assert parts[0] == u[..i];
    SplitRewriteInserts(u);
  }

  /** The `secure_url` rule: a `/upload/v` gets the transformation before the
      version; otherwise a single `/upload/` gets it unless its tail already
      starts with `f_auto`. The result is the input, or the input with the
      transformation inserted after one of its `/upload/` segments. */
  function TransformSecureUrl(u: string): (r: string)
    ensures r == u || exists i :: InsertedAt(u, r, i)
    ensures Free(u, UploadSegment) ==> r == u
    ensures Includes(u, "/upload/v") ==>
      var i := IndexOf(u, "/upload/v"); r == u[..i + 8] + Transformation + u[i + 8..]
    ensures !Includes(u, "/upload/v") ==>
      var parts := Split(u, UploadSegment);
      r == if |parts| == 2 && !StartsWith(parts[1], "f_auto") then FirstInsertion(u) else u
  {
    if Includes(u, "/upload/v") then
      VersionedRewriteInserts(u);
      ReplaceFirst(u, "/upload/v", "/upload/f_auto,q_auto/v")
    else if Includes(u, "/upload/") then
      var parts := Split(u, "/upload/");
      if |parts| == 2 && !StartsWith(parts[1], "f_auto") then
        SplitRewriteInserts(u);
        SplitJoinIsFirstInsertion(u);
        parts[0] + "/upload/f_auto,q_auto/" + parts[1]
      else u
    else u
  }

  /** The `thumbnailURL` rule: as for `secure_url`, except that without a
      version the transformation is skipped when `f_auto` appears anywhere */
  function TransformThumbnailUrl(u: string): (r: string)
    ensures r == u || exists i :: InsertedAt(u, r, i)
    ensures Free(u, UploadSegment) ==> r == u
    ensures Includes(u, "/upload/v") ==>
      var i := IndexOf(u, "/upload/v"); r == u[..i + 8] + Transformation + u[i + 8..]
    ensures !Includes(u, "/upload/v") ==>
      r == if |Split(u, UploadSegment)| == 2 && !Includes(u, "f_auto") then FirstInsertion(u) else u
  {
    if Includes(u, "/upload/v") then
      VersionedRewriteInserts(u);
      ReplaceFirst(u, "/upload/v", "/upload/f_auto,q_auto/v")
    else if Includes(u, "/upload/") && !Includes(u, "f_auto") then
      var parts := Split(u, "/upload/");
      if |parts| == 2 then
        SplitRewriteInserts(u);
        SplitJoinIsFirstInsertion(u);
        parts[0] + "/upload/f_auto,q_auto/" + parts[1]
      else u
    else u
  }

  /** With one `/upload/` segment, `/upload/v` occurs exactly when the tail
      starts with `v`, and then at the same place */
  lemma VersionedIffTail(u: string, i: nat)
    requires SingleUploadAt(u, i)
    ensures Includes(u, "/upload/v") <==> StartsWith(u[i + 8..], "v")
    ensures Includes(u, "/upload/v") ==> IndexOf(u, "/upload/v") == i
  {
    forall j | OccursAt(u, "/upload/v", j) ensures j == i && StartsWith(u[i + 8..], "v") {
      assert u[j..j + 8] == u[j..j + 9][..8];
      assert OccursAt(u, UploadSegment, j);
      assert u[i + 8..][..1] == [u[i + 8]] == [u[j..j + 9][8]];
    }
    if StartsWith(u[i + 8..], "v") {
      assert u[i..i + 9] == u[i..i + 8] + [u[i + 8]];
      assert OccursAt(u, "/upload/v", i);
    }
  }

  /** With exactly one `/upload/` segment, `secure_url` gets the
      transformation unless the tail after the segment starts with `f_auto`
      (whether or not a version follows) */
  lemma SecureUrlSingle(u: string, i: nat)
    requires SingleUploadAt(u, i)
    ensures TransformSecureUrl(u) ==
      if StartsWith(u[i + 8..], "f_auto") then u else u[..i + 8] + Transformation + u[i + 8..]
  {
    VersionedIffTail(u, i);
    if Includes(u, "/upload/v") {
      SecureUrlVersioned(u, i);
    } else {
      SecureUrlUnversioned(u, i);
    }
  }

  lemma SecureUrlVersioned(u: string, i: nat)
    requires SingleUploadAt(u, i) && Includes(u, "/upload/v") && IndexOf(u, "/upload/v") == i
    ensures TransformSecureUrl(u) == u[..i + 8] + Transformation + u[i + 8..]
    ensures !StartsWith(u[i + 8..], "f_auto")
  {
    VersionedRewriteInserts(u);
    assert u[i + 8] == u[i..i + 9][8] == 'v';
    assert |u[i + 8..]| < 6 || u[i + 8..][..6][0] == 'v';
  }

  lemma SecureUrlUnversioned(u: string, i: nat)
    requires SingleUploadAt(u, i) && !Includes(u, "/upload/v")
    ensures TransformSecureUrl(u) ==
      if StartsWith(u[i + 8..], "f_auto") then u else u[..i + 8] + Transformation + u[i + 8..]
  {
    assert IndexOf(u, UploadSegment) != -1;
    SplitSingle(u, UploadSegment, i);
    InsertionForm(u, i);
  }

  /** With exactly one `/upload/` segment, `thumbnailURL` gets the
      transformation when a version follows the segment, and otherwise only
      when `f_auto` appears nowhere in the URL */
  lemma ThumbnailUrlSingle(u: string, i: nat)
    requires SingleUploadAt(u, i)
    ensures TransformThumbnailUrl(u) ==
      if !StartsWith(u[i + 8..], "v") && Includes(u, "f_auto") then u
      else u[..i + 8] + Transformation + u[i + 8..]
  {
    VersionedIffTail(u, i);
    if Includes(u, "/upload/v") {
      VersionedRewriteInserts(u);
    } else {
      ThumbnailUrlUnversioned(u, i);
    }
  }

  lemma ThumbnailUrlUnversioned(u: string, i: nat)
    requires SingleUploadAt(u, i) && !Includes(u, "/upload/v")
    ensures TransformThumbnailUrl(u) == if Includes(u, "f_auto") then u else u[..i + 8] + Transformation + u[i + 8..]
  {
    if !Includes(u, "f_auto") {
      assert IndexOf(u, UploadSegment) != -1;
      SplitSingle(u, UploadSegment, i);
      InsertionForm(u, i);
    }
  }

  /** A string holding a separator splits into at least two pieces */
  lemma SplitAtLeastTwo(s: string, sep: string, k: nat)
    requires |sep| > 0 && OccursAt(s, sep, k)
    ensures |Split(s, sep)| >= 2
  {
    assert IndexOf(s, sep) != -1;
  }

  /** Two non-overlapping `/upload/` segments make `split` give three or more
      pieces */
  lemma SplitManySegments(u: string, i: nat, j: nat)
    requires OccursAt(u, UploadSegment, i) && OccursAt(u, UploadSegment, j) && i + 8 <= j
    ensures |Split(u, UploadSegment)| >= 3
  {
    var first := IndexOf(u, UploadSegment);
    var tail := u[first + 8..];
    assert tail[j - first - 8..j - first] == u[j..j + 8];
    SplitAtLeastTwo(tail, UploadSegment, j - first - 8);
  }

  /** Without a version, a URL with two non-overlapping `/upload/` segments is
      left as it is by both rules */
  lemma ManySegmentsUnchanged(u: string, i: nat, j: nat)
    requires OccursAt(u, UploadSegment, i) && OccursAt(u, UploadSegment, j) && i + 8 <= j
    requires !Includes(u, "/upload/v")
    ensures TransformSecureUrl(u) == u
    ensures TransformThumbnailUrl(u) == u
  {
    SplitManySegments(u, i, j);
  }

  /** `/upload/upload/`: two `/upload/` segments that share a slash count as
      one for `split`, so without a version both rules insert the
      transformation after the first of them */
  lemma OverlappingSegmentsRewritten(u: string, i: nat)
    requires OccursAt(u, UploadSegment, i) && OccursAt(u, UploadSegment, i + 7)
    requires forall j :: OccursAt(u, UploadSegment, j) ==> j == i || j == i + 7
    requires !Includes(u, "/upload/v")
    ensures TransformSecureUrl(u) == u[..i + 8] + Transformation + u[i + 8..]
    ensures TransformThumbnailUrl(u) ==
      if Includes(u, "f_auto") then u else u[..i + 8] + Transformation + u[i + 8..]
  {
    var tail := u[i + 8..];
    assert IndexOf(u, UploadSegment) == i;
    forall j | 0 <= j && j + 8 <= |tail| ensures !OccursAt(tail, UploadSegment, j) {
      assert !OccursAt(u, UploadSegment, i + 8 + j);
      assert u[i + 8 + j..i + 16 + j] == tail[j..j + 8];
    }
    assert IndexOf(tail, UploadSegment) == -1;
    assert Split(u, UploadSegment) == [u[..i], tail];
    assert tail[..6] == u[i + 8..i + 14];
    assert u[i + 8] == u[i + 7..i + 15][1] == 'u';
    assert !StartsWith(tail, "f_auto");
    InsertionForm(u, i);
  }

  /** Inserting the transformation creates no second `/upload/` segment */
  lemma {:induction false} InsertKeepsSingle(u: string, i: nat)
    requires SingleUploadAt(u, i)
    ensures SingleUploadAt(u[..i + 8] + Transformation + u[i + 8..], i)
  {
    var a, b := u[..i], u[i + 8..];
    var v := u[..i + 8] + Transformation + u[i + 8..];
    assert |v| == |u| + 14;
    assert v[i..i + 8] == u[i..i + 8];
    forall j | 0 <= j && j + 8 <= |v| && j != i ensures !OccursAt(v, UploadSegment, j) {
      var w := v[j..j + 8];
      if j < i {
        assert w == u[j..j + 8];
        assert !OccursAt(u, UploadSegment, j);
      } else if j < i + 7 {
        assert v[j] == u[j] == u[i..i + 8][j - i];
        assert w[0] == v[j] == UploadSegment[j - i] != '/';
      } else if j == i + 7 {
        assert w[1] == v[i + 8] == 'f';
      } else if j < i + 21 {
        assert w[0] == v[j] == Transformation[j - i - 8];
      } else if j == i + 21 {
        assert w == "/" + u[i + 8..i + 15];
        assert u[i + 7] == u[i..i + 8][7] == '/';
        assert u[i + 7..i + 15] == "/" + u[i + 8..i + 15];
        assert !OccursAt(u, UploadSegment, i + 7);
      } else {
        assert w == u[j - 14..j - 6];
        assert !OccursAt(u, UploadSegment, j - 14);
      }
    }
  }

  /** With one `/upload/` segment, transforming a `secure_url` twice is the
      same as once */
  lemma SecureUrlIdempotent(u: string, i: nat)
    requires SingleUploadAt(u, i)
    ensures TransformSecureUrl(TransformSecureUrl(u)) == TransformSecureUrl(u)
  {
    SecureUrlSingle(u, i);
    if !StartsWith(u[i + 8..], "f_auto") {
      var v := u[..i + 8] + Transformation + u[i + 8..];
      InsertKeepsSingle(u, i);
      SecureUrlSingle(v, i);
      assert v[i + 8..][..6] == "f_auto";
    }
  }

  /** With one `/upload/` segment, transforming a `thumbnailURL` twice is the
      same as once */
  lemma ThumbnailUrlIdempotent(u: string, i: nat)
    requires SingleUploadAt(u, i)
    ensures TransformThumbnailUrl(TransformThumbnailUrl(u)) == TransformThumbnailUrl(u)
  {
    ThumbnailUrlSingle(u, i);
    if StartsWith(u[i + 8..], "v") || !Includes(u, "f_auto") {
      ThumbnailUrlSettled(u, i);
    }
  }

  /** Once inserted, the transformation stops the `thumbnailURL` rule */
  lemma ThumbnailUrlSettled(u: string, i: nat)
    requires SingleUploadAt(u, i)
    ensures var v := u[..i + 8] + Transformation + u[i + 8..];
      TransformThumbnailUrl(v) == v
  {
    var v := u[..i + 8] + Transformation + u[i + 8..];
    InsertKeepsSingle(u, i);
    ThumbnailUrlSingle(v, i);
    assert v[i + 8..][..1] == "f";
    assert v[i + 8..i + 14] == "f_auto";
    assert OccursAt(v, "f_auto", i + 8);
  }

  // ---------------------------------------------------------------------
  // Resolution

  /** The field of an upload document that `getImageUrl` reads */
  datatype Source = SecureUrl(url: string) | ThumbnailUrl(url: string) | PlainUrl(url: string) | NoSource

  predicate HasSecureUrl(img: PayloadImage) {
    img.cloudinary.Some? && img.cloudinary.value.secureUrl != ""
  }

  predicate HasThumbnailUrl(img: PayloadImage) {
    img.thumbnailUrl.Some? && img.thumbnailUrl.value != ""
  }

  /** A non-empty `secure_url` wins over a non-empty `thumbnailURL`, which wins
      over a non-empty `url` */
  function ChosenSource(img: PayloadImage): (s: Source)
    ensures s.SecureUrl? <==> HasSecureUrl(img)
    ensures s.ThumbnailUrl? <==> !HasSecureUrl(img) && HasThumbnailUrl(img)
    ensures s.PlainUrl? <==> !HasSecureUrl(img) && !HasThumbnailUrl(img) && img.url != ""
    ensures s.NoSource? <==> !HasSecureUrl(img) && !HasThumbnailUrl(img) && img.url == ""
    ensures s.SecureUrl? ==> s.url == img.cloudinary.value.secureUrl
    ensures s.ThumbnailUrl? ==> s.url == img.thumbnailUrl.value
    ensures s.PlainUrl? ==> s.url == img.url
  {
    if HasSecureUrl(img) then SecureUrl(img.cloudinary.value.secureUrl)
    else if HasThumbnailUrl(img) then ThumbnailUrl(img.thumbnailUrl.value)
    else if img.url != "" then PlainUrl(img.url)
    else NoSource
  }

  /** `getImageUrl` */
  function GetImageUrl(image: ImageRef): (r: string)
    ensures image.Absent? || image == Reference("") ==> r == ""
    ensures image.Reference? && image.path != "" ==> r == ResolvePath(image.path)
    ensures image.Upload? ==>
      r == match ChosenSource(image.image)
           case SecureUrl(u) => TransformSecureUrl(u)
           case ThumbnailUrl(u) => TransformThumbnailUrl(u)
           case PlainUrl(u) => ResolvePath(u)
           case NoSource => ""
  {
    match image
    case Absent => ""
    case Reference(s) => if s == "" then "" else ResolvePath(s)
    case Upload(img) =>
      if HasSecureUrl(img) then TransformSecureUrl(img.cloudinary.value.secureUrl)
      else if HasThumbnailUrl(img) then TransformThumbnailUrl(img.thumbnailUrl.value)
      else if img.url != "" then ResolvePath(img.url)
      else ""
  }

  /** The result is empty exactly when the reference gives nothing to resolve */
  lemma GetImageUrlEmpty(image: ImageRef)
    ensures GetImageUrl(image) == "" <==>
      image.Absent? || image == Reference("") || (image.Upload? && ChosenSource(image.image).NoSource?)
  {
    match image
    case Absent =>
    case Reference(s) =>
    case Upload(img) =>
      match ChosenSource(img)
      case SecureUrl(u) =>
        var r := TransformSecureUrl(u);
        assert |r| >= |u| by {
          if r != u { var i :| InsertedAt(u, r, i); }
        }
      case ThumbnailUrl(u) =>
        var r := TransformThumbnailUrl(u);
        assert |r| >= |u| by {
          if r != u { var i :| InsertedAt(u, r, i); }
        }
      case PlainUrl(u) =>
      case NoSource =>
  }

  /** Once a non-empty `secure_url` is present, the other fields are ignored */
  lemma SecureUrlWins(a: PayloadImage, b: PayloadImage)
    requires HasSecureUrl(a) && b.cloudinary == a.cloudinary
    ensures GetImageUrl(Upload(a)) == GetImageUrl(Upload(b))
  {
  }
}
