/** The media classifier of the list page (`getMediaType`): an ordered chain of string tests that sorts a
    row's optional `img` URL into an image, a video or an outbound site link. */
module Media {
  import opened Wrappers
  import opened Strings

  datatype MediaType = Image | Video | Site

  /** Reference reading of a case-insensitive suffix test, character by character: the last `|p|`
      characters of `s`, lower-cased, spell `p`. */
  predicate HasSuffixIgnoringCase(s: string, p: string) {
    |p| <= |s| && forall k :: 0 <= k < |p| ==> LowerChar(s[|s| - |p| + k]) == p[k]
  }

  predicate HasImageExtension(s: string) {
    HasSuffixIgnoringCase(s, ".jpeg") || HasSuffixIgnoringCase(s, ".jpg")
  }

  /** Lower-casing the whole string and then testing the suffix, as the page does, is the
      character-by-character case-insensitive suffix test. */
  lemma LowerEndsWith(s: string, p: string)
    ensures EndsWith(Lower(s), p) <==> HasSuffixIgnoringCase(s, p)
  {
    if |p| <= |s| {
      var t := Lower(s)[|s| - |p|..];
      assert |t| == |p|;
      assert forall k :: 0 <= k < |p| ==> t[k] == LowerChar(s[|s| - |p| + k]);
      if HasSuffixIgnoringCase(s, p) {
        assert t == p;
      }
    }
  }

  /** An absent or empty URL is a site; otherwise the image test wins over the `youtube.com` test, which
      is case-sensitive, and whatever passes neither is a site. */
  function GetMediaType(url: Option<string>): (t: MediaType)
    ensures url.None? || url == Some("") ==> t == Site
    ensures t == Image <==> url.Some? && url.value != "" && HasImageExtension(url.value)
    ensures t == Video <==>
      url.Some? && url.value != "" && !HasImageExtension(url.value) && Includes(url.value, "youtube.com")
  {
    if url.None? || url.value == "" then
      Site
    else
      LowerEndsWith(url.value, ".jpeg");
      LowerEndsWith(url.value, ".jpg");
      if EndsWith(Lower(url.value), ".jpeg") || EndsWith(Lower(url.value), ".jpg") then
        Image
      else if Includes(url.value, "youtube.com") then
        Video
      else
        Site
  }

  /** Precedence: a `youtube.com` URL whose extension is written `.JPG` is an image, not a video. */
  lemma ImageTestComesFirst(s: string)
    requires Includes(s, "youtube.com")
    requires EndsWith(s, ".JPG")
    ensures GetMediaType(Some(s)) == Image
  {
    var n := |s|;
    assert s[n - 4..] == ".JPG";
    assert s[n - 4] == '.' && s[n - 3] == 'J' && s[n - 2] == 'P' && s[n - 1] == 'G';
    assert HasSuffixIgnoringCase(s, ".jpg");
  }

  /** A URL ending in the lower-case extension `.jpg` is an image whatever precedes it. */
  lemma JpgIsImage(s: string)
    requires EndsWith(s, ".jpg")
    ensures GetMediaType(Some(s)) == Image
  {
    var n := |s|;
    assert s[n - 4..] == ".jpg";
    assert s[n - 4] == '.' && s[n - 3] == 'j' && s[n - 2] == 'p' && s[n - 1] == 'g';
    assert HasSuffixIgnoringCase(s, ".jpg");
  }
}
