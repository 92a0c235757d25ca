/**
 * The site settings of server/index.js (a profile image and an ordered list of site
 * images) with the merge of PUT /api/site-settings, and the upload filter that decides
 * which files the image upload routes accept.
 */
module SiteSettings {
  import opened Wrappers
  import opened Text

  datatype SiteImage = SiteImage(id: string, title: string, url: string)

  datatype Settings = Settings(profileImage: string, siteImages: seq<SiteImage>)

  /** `initSiteFile`, and what a failed read falls back to. */
  const InitialSettings := Settings("", [])

  /**
   * PUT /api/site-settings: a `profileImage` that is not `undefined` replaces the stored one
   * (`None` when undefined); `siteImages` replaces the stored list only when it is an array
   * (`None` when it is not).
   */
  function MergeSettings(current: Settings, profileImage: Option<string>, siteImages: Option<seq<SiteImage>>): (r: Settings)
    ensures profileImage.Some? ==> r.profileImage == profileImage.value
    ensures profileImage.None? ==> r.profileImage == current.profileImage
    ensures siteImages.Some? ==> r.siteImages == siteImages.value
    ensures siteImages.None? ==> r.siteImages == current.siteImages
  {
    Settings(
      if profileImage.Some? then profileImage.value else current.profileImage,
      if siteImages.Some? then siteImages.value else current.siteImages)
  }

  /** A body that supplies neither field leaves the settings as they are. */
  lemma MergeNothing(current: Settings)
    ensures MergeSettings(current, None, None) == current
  {
  }

  /** Saving the same body twice is the same as saving it once. */
  lemma MergeIdempotent(current: Settings, profileImage: Option<string>, siteImages: Option<seq<SiteImage>>)
    ensures var once := MergeSettings(current, profileImage, siteImages);
      MergeSettings(once, profileImage, siteImages) == once
  {
  }

  function Or<T>(later: Option<T>, earlier: Option<T>): Option<T> {
    if later.Some? then later else earlier
  }

  /** Two saves in a row: each field takes the later supplied value, else the earlier one. */
  lemma MergeTwice(current: Settings, p1: Option<string>, s1: Option<seq<SiteImage>>, p2: Option<string>, s2: Option<seq<SiteImage>>)
    ensures MergeSettings(MergeSettings(current, p1, s1), p2, s2) == MergeSettings(current, Or(p2, p1), Or(s2, s1))
  {
  }

  // ---- The upload filter ----

  /** A test of `/jpeg|jpg|png|gif|webp/`: one of the alternatives occurs anywhere in `s`. */
  predicate ImagePattern(s: string) {
    Contains(s, "jpeg") || Contains(s, "jpg") || Contains(s, "png") || Contains(s, "gif") || Contains(s, "webp")
  }

  /** multer's `fileFilter`: the lower-cased original name and the MIME type must both match the pattern. */
  predicate AcceptUpload(originalName: string, mimeType: string) {
    ImagePattern(ToLower(originalName)) && ImagePattern(mimeType)
  }

  lemma LowerCharIdempotent(c: char)
    ensures LowerChar(LowerChar(c)) == LowerChar(c)
  {
  }

  lemma ToLowerIdempotent(s: string)
    ensures ToLower(ToLower(s)) == ToLower(s)
  {
    forall i | 0 <= i < |s| ensures ToLower(ToLower(s))[i] == ToLower(s)[i] {
      LowerCharIdempotent(s[i]);
    }
  }

  /** The name test ignores the case of ASCII letters. */
  lemma NameCaseIgnored(originalName: string, mimeType: string)
    ensures AcceptUpload(ToLower(originalName), mimeType) == AcceptUpload(originalName, mimeType)
  {
    ToLowerIdempotent(originalName);
  }

  /** The pattern is not anchored: an executable whose name mentions an image extension passes. */
  lemma ExecutableNamePasses()
    ensures AcceptUpload("x.png.exe", "image/png")
  {
    var name := "x.png.exe";
    assert ToLower(name) == name;
    assert OccursAt(name, "png", 2);
    assert OccursAt("image/png", "png", 6);
  }

  /** A pattern that starts with a lower-case letter never occurs in a string without one. */
  lemma NoLowerNoMatch(s: string, pattern: string)
    requires |pattern| > 0 && 'a' <= pattern[0] <= 'z'
    requires forall i :: 0 <= i < |s| ==> !('a' <= s[i] <= 'z')
    ensures !Contains(s, pattern)
  {
    forall j: int ensures !OccursAt(s, pattern, j) {
      if 0 <= j && j + |pattern| <= |s| {
        assert s[j..j + |pattern|][0] == s[j];
      }
    }
  }

  /** The MIME type is matched as sent, so an upper-case type is refused. */
  lemma UpperCaseTypeRefused()
    ensures !AcceptUpload("photo.png", "IMAGE/PNG")
  {
    var m := "IMAGE/PNG";
    assert forall i :: 0 <= i < |m| ==> !('a' <= m[i] <= 'z');
    NoLowerNoMatch(m, "jpeg");
    NoLowerNoMatch(m, "jpg");
    NoLowerNoMatch(m, "png");
    NoLowerNoMatch(m, "gif");
    NoLowerNoMatch(m, "webp");
  }
}
