/** Video-identifier extraction (`extractVideoId`) and thumbnail URLs (`generateThumbnailUrl`).

    `extractVideoId` runs two regular expressions and takes the first capture. Each one is written
    here twice:
    - a ghost "route" predicate that says which captures some way of matching the pattern at a position can
      produce (the quantified parts stated existentially);
    - a deterministic matcher that picks the capture the JavaScript engine picks: leftmost start position,
      alternatives in written order, greedy quantifiers longest first, the lazy `\S*?` shortest first.
    Each matcher is proved sound against its route, and complete: if a route exists, the matcher finds a capture. */
module VideoId {
  import opened Wrappers
  import opened Strings
  import opened Media

  /** The YouTube pattern captures exactly `{11}` identifier characters. */
  const IdLength: nat := 11

  const WatchHost := "youtube.com/"
  const ShortHost := "youtu.be/"
  const CdnPrefix := "i3.ytimg.com/vi/"
  const CdnSuffix := "/maxresdefault.jpg"

  /** The template literal of `generateThumbnailUrl`, before and after the identifier. */
  const ThumbnailPrefix := "https://" + CdnPrefix

  /** The first pattern (YouTube page URLs) and the second (thumbnail-CDN URLs). */
  datatype Pattern = YouTube | Cdn

  /** The capture group of a match: `s[start..end]`. */
  datatype Span = Span(start: nat, end: nat)

  predicate IdAt(s: string, p: nat) {
    p + IdLength <= |s| && All(s, p, p + IdLength, IsIdChar)
  }

  /** The class `[^\/\n\s]`. */
  predicate NotSlashSpace(c: char) {
    c != '/' && !IsSpace(c)
  }

  // ---------------------------------------------------------------------------------------------
  // Routes: what some way of matching each pattern at position `i` can capture
  // ---------------------------------------------------------------------------------------------

  /** `[^\/\n\s]+\/\S+\/` from `j`, leaving the identifier at `p`: one segment, a slash, a non-blank
      stretch, a slash. */
  ghost predicate SegmentRoute(s: string, j: nat, p: nat) {
    p <= |s| &&
    exists k :: j < k && k + 3 <= p && All(s, j, k, NotSlashSpace) && s[k] == '/'
      && All(s, k + 1, p - 1, NotSpace) && s[p - 1] == '/'
  }

  /** `\S*?[?&]v=` from `j`, leaving the identifier at `p`. */
  ghost predicate QueryRoute(s: string, j: nat, p: nat) {
    j + 3 <= p <= |s| && All(s, j, p - 3, NotSpace)
    && (s[p - 3] == '?' || s[p - 3] == '&') && s[p - 2] == 'v' && s[p - 1] == '='
  }

  /** `(?:youtube\.com\/(?:SEGMENTS|(?:v|e(?:mbed)?)\/|QUERY)|youtu\.be\/)([a-zA-Z0-9_-]{11})` at `i`
      with the capture starting at `p`. */
  ghost predicate YouTubeRoute(s: string, i: nat, p: nat) {
    IdAt(s, p) &&
    ((StartsAt(s, i, WatchHost) &&
      (SegmentRoute(s, i + |WatchHost|, p)
       || (StartsAt(s, i + |WatchHost|, "v/") && p == i + |WatchHost| + |"v/"|)
       || (StartsAt(s, i + |WatchHost|, "embed/") && p == i + |WatchHost| + |"embed/"|)
       || (StartsAt(s, i + |WatchHost|, "e/") && p == i + |WatchHost| + |"e/"|)
       || QueryRoute(s, i + |WatchHost|, p)))
     || (StartsAt(s, i, ShortHost) && p == i + |ShortHost|))
  }

  /** `i3\.ytimg\.com\/vi\/\s*([a-zA-Z0-9_-]+)\s*\/maxresdefault\.jpg` at `i` capturing `s[a..b]`. */
  ghost predicate CdnRoute(s: string, i: nat, a: nat, b: nat) {
    StartsAt(s, i, CdnPrefix) && i + |CdnPrefix| <= a < b <= |s|
    && All(s, i + |CdnPrefix|, a, IsSpace) && All(s, a, b, IsIdChar)
    && exists c :: b <= c <= |s| && All(s, b, c, IsSpace) && StartsAt(s, c, CdnSuffix)
  }

  ghost predicate Matches(pat: Pattern, s: string, i: nat, sp: Span) {
    match pat
    case YouTube => sp.end == sp.start + IdLength && YouTubeRoute(s, i, sp.start)
    case Cdn => CdnRoute(s, i, sp.start, sp.end)
  }

  // ---------------------------------------------------------------------------------------------
  // The YouTube pattern
  // ---------------------------------------------------------------------------------------------

  /** Some route of the segment alternative from `j` is followed by an identifier. */
  ghost predicate HasSegmentRoute(s: string, j: nat) {
    exists p: nat :: SegmentRoute(s, j, p) && IdAt(s, p)
  }

  /** The alternative `v/`, `embed/` or `e/` from `j`, followed by an identifier. */
  predicate PathRoute(s: string, j: nat, path: string) {
    StartsAt(s, j, path) && IdAt(s, j + |path|)
  }

  /** The capture of an identifier that starts at `p`. */
  function IdSpan(p: nat): Span {
    Span(p, p + IdLength)
  }

  /** Backtracking of the greedy `\S+\/` over slash positions in `[lo, hi)`: the LAST slash that is
      followed by an identifier wins. Returns the position after that slash. */
  function LastSlashBeforeId(s: string, lo: nat, hi: nat): (r: Option<nat>)
    requires hi <= |s|
    ensures r.Some? ==> lo < r.value <= hi && s[r.value - 1] == '/' && IdAt(s, r.value)
    ensures forall q :: lo <= q < hi && (r.None? || r.value <= q) ==> !(s[q] == '/' && IdAt(s, q + 1))
    decreases hi
  {
    if hi <= lo then None
    else if s[hi - 1] == '/' && IdAt(s, hi) then Some(hi)
    else LastSlashBeforeId(s, lo, hi - 1)
  }

  /** The `[^\/\n\s]+\/\S+\/` alternative from `j`. The first segment can only end at the first slash,
      and the second runs over non-blank characters, so the capture follows the last suitable slash of
      that stretch. */
  function SegmentCapture(s: string, j: nat): (r: Option<nat>)
    requires j <= |s|
    ensures r.Some? ==> SegmentRoute(s, j, r.value) && IdAt(s, r.value)
    ensures forall p: nat :: SegmentRoute(s, j, p) && IdAt(s, p) ==> r.Some? && p <= r.value
  {
    var k := RunEnd(s, j, NotSlashSpace);
    SegmentRoutesAfterFirstSlash(s, j);
    if k == j || k == |s| || s[k] != '/' then
      None
    else
      var m := RunEnd(s, k + 1, NotSpace);
      var r := LastSlashBeforeId(s, k + 2, m);
      if r.Some? then
        assert All(s, k + 1, r.value - 1, NotSpace);
        r
      else
        None
  }

  /** Every segment route goes through the first slash after `j`, and its second stretch stays within the
      non-blank run after that slash. */
  lemma SegmentRoutesAfterFirstSlash(s: string, j: nat)
    requires j <= |s|
    ensures forall p: nat :: SegmentRoute(s, j, p) ==>
      RunEnd(s, j, NotSlashSpace) < |s| && s[RunEnd(s, j, NotSlashSpace)] == '/' && j < RunEnd(s, j, NotSlashSpace)
      && p <= RunEnd(s, RunEnd(s, j, NotSlashSpace) + 1, NotSpace)
  {
    var k := RunEnd(s, j, NotSlashSpace);
    forall p: nat | SegmentRoute(s, j, p)
      ensures k < |s| && s[k] == '/' && j < k && p <= RunEnd(s, k + 1, NotSpace)
    {
      var k' :| j < k' && k' + 3 <= p && All(s, j, k', NotSlashSpace) && s[k'] == '/'
        && All(s, k' + 1, p - 1, NotSpace) && s[p - 1] == '/';
      RunEndUnique(s, j, k', NotSlashSpace);
    }
  }

  /** The lazy `\S*?[?&]v=` alternative from `j`: the FIRST `?v=` or `&v=` before any blank that is
      followed by an identifier. */
  function QueryCapture(s: string, j: nat): (r: Option<nat>)
    requires j <= |s|
    ensures r.Some? ==> QueryRoute(s, j, r.value) && IdAt(s, r.value)
    ensures forall p :: QueryRoute(s, j, p) && IdAt(s, p) ==> r.Some? && r.value <= p
    decreases |s| - j
  {
    if j == |s| || IsSpace(s[j]) then
      None
    else if j + 3 <= |s| && (s[j] == '?' || s[j] == '&') && s[j + 1] == 'v' && s[j + 2] == '=' && IdAt(s, j + 3) then
      Some(j + 3)
    else
      var r := QueryCapture(s, j + 1);
      assert forall p :: QueryRoute(s, j, p) && IdAt(s, p) ==> QueryRoute(s, j + 1, p);
      r
  }

  /** What the YouTube pattern captures when its match starts at `i`, in the engine's order of
      alternatives. */
  function YouTubeMatchAt(s: string, i: nat): (r: Option<Span>)
    requires i <= |s|
    ensures r.Some? ==> Matches(YouTube, s, i, r.value)
  {
    if StartsAt(s, i, WatchHost) then
      var j := i + |WatchHost|;
      var seg := SegmentCapture(s, j);
      if seg.Some? then Some(IdSpan(seg.value))
      else if PathRoute(s, j, "v/") then Some(IdSpan(j + |"v/"|))
      else if PathRoute(s, j, "embed/") then Some(IdSpan(j + |"embed/"|))
      else if PathRoute(s, j, "e/") then Some(IdSpan(j + |"e/"|))
      else
        var q := QueryCapture(s, j);
        if q.Some? then Some(IdSpan(q.value)) else None
    else if StartsAt(s, i, ShortHost) && IdAt(s, i + |ShortHost|) then
      Some(IdSpan(i + |ShortHost|))
    else
      None
  }

  /** The order in which the YouTube pattern's alternatives are tried, stated on routes: at
      `youtube.com/`, the segment alternative and its last route, then `v/`, `embed/` and `e/`, then the
      query alternative and its first route; `youtu.be/` only where `youtube.com/` does not start. */
  lemma YouTubeMatchAtOrder(s: string, i: nat, r: Option<Span>)
    requires i <= |s| && r == YouTubeMatchAt(s, i)
    // the segment alternative first, and its last route
    ensures StartsAt(s, i, WatchHost) && HasSegmentRoute(s, i + |WatchHost|) ==>
      r.Some? && SegmentRoute(s, i + |WatchHost|, r.value.start)
      && forall p: nat :: SegmentRoute(s, i + |WatchHost|, p) && IdAt(s, p) ==> p <= r.value.start
    // then `v/`, `embed/` and `e/`, in that order
    ensures StartsAt(s, i, WatchHost) && !HasSegmentRoute(s, i + |WatchHost|) ==>
      (PathRoute(s, i + |WatchHost|, "v/") ==> r == Some(IdSpan(i + |WatchHost| + |"v/"|)))
      && (!PathRoute(s, i + |WatchHost|, "v/") && PathRoute(s, i + |WatchHost|, "embed/") ==>
          r == Some(IdSpan(i + |WatchHost| + |"embed/"|)))
      && ((!PathRoute(s, i + |WatchHost|, "v/") && !PathRoute(s, i + |WatchHost|, "embed/")
           && PathRoute(s, i + |WatchHost|, "e/")) ==> r == Some(IdSpan(i + |WatchHost| + |"e/"|)))
    // the query alternative last, and its first route
    ensures (StartsAt(s, i, WatchHost) && !HasSegmentRoute(s, i + |WatchHost|)
             && !PathRoute(s, i + |WatchHost|, "v/") && !PathRoute(s, i + |WatchHost|, "embed/")
             && !PathRoute(s, i + |WatchHost|, "e/")) ==>
      (r.Some? <==> exists p: nat :: QueryRoute(s, i + |WatchHost|, p) && IdAt(s, p))
      && (r.Some? ==> forall p: nat :: QueryRoute(s, i + |WatchHost|, p) && IdAt(s, p) ==> r.value.start <= p)
    // the short host
    ensures !StartsAt(s, i, WatchHost) ==>
      r == (if StartsAt(s, i, ShortHost) && IdAt(s, i + |ShortHost|) then Some(IdSpan(i + |ShortHost|)) else None)
  {
  }

  lemma YouTubeMatchAtComplete(s: string, i: nat, p: nat)
    requires i <= |s|
    requires YouTubeRoute(s, i, p)
    ensures YouTubeMatchAt(s, i).Some?
  {
    if StartsAt(s, i, WatchHost) {
      assert s[i + 5] == WatchHost[5] == 'b';  // `youtu.be/` has a dot there
      assert !StartsAt(s, i, ShortHost);
      if SegmentRoute(s, i + |WatchHost|, p) {
      } else if QueryRoute(s, i + |WatchHost|, p) {
        assert QueryCapture(s, i + |WatchHost|).Some?;
      }
    } else {
      assert StartsAt(s, i, ShortHost);
    }
  }

  // ---------------------------------------------------------------------------------------------
  // The thumbnail-CDN pattern
  // ---------------------------------------------------------------------------------------------

  /** What the CDN pattern captures when its match starts at `i`. Each `\s*` and the identifier run can
      only stop where the next character leaves their class, so there is one candidate. */
  function CdnMatchAt(s: string, i: nat): (r: Option<Span>)
    requires i <= |s|
    ensures r.Some? ==> Matches(Cdn, s, i, r.value)
  {
    if !StartsAt(s, i, CdnPrefix) then
      None
    else
      var a := RunEnd(s, i + |CdnPrefix|, IsSpace);
      var b := RunEnd(s, a, IsIdChar);
      var c := RunEnd(s, b, IsSpace);
      if a < b && StartsAt(s, c, CdnSuffix) then Some(Span(a, b)) else None
  }

  /** Any route of the CDN pattern at a position is the matcher's result there: the pattern has at most
      one route at a position, and when it has one the matcher returns it. */
  lemma CdnMatchAtComplete(s: string, i: nat, a: nat, b: nat)
    requires i <= |s|
    requires CdnRoute(s, i, a, b)
    ensures CdnMatchAt(s, i) == Some(Span(a, b))
  {
    var c :| b <= c <= |s| && All(s, b, c, IsSpace) && StartsAt(s, c, CdnSuffix);
    assert s[c] == '/';
    RunEndUnique(s, i + |CdnPrefix|, a, IsSpace);
    assert b == |s| || !IsIdChar(s[b]) by {
      if b < c { assert IsSpace(s[b]); }
    }
    RunEndUnique(s, a, b, IsIdChar);
    RunEndUnique(s, b, c, IsSpace);
  }

  // ---------------------------------------------------------------------------------------------
  // String.prototype.match: the leftmost match and its capture
  // ---------------------------------------------------------------------------------------------

  function MatchAt(pat: Pattern, s: string, i: nat): (r: Option<Span>)
    requires i <= |s|
    ensures r.Some? ==> Matches(pat, s, i, r.value)
  {
    match pat
    case YouTube => YouTubeMatchAt(s, i)
    case Cdn => CdnMatchAt(s, i)
  }

  /** If some route of the pattern starts at `i`, the matcher matches at `i`. */
  lemma MatchAtComplete(pat: Pattern, s: string, i: nat, sp: Span)
    requires i <= |s|
    requires Matches(pat, s, i, sp)
    ensures MatchAt(pat, s, i).Some?
  {
    match pat
    case YouTube => YouTubeMatchAtComplete(s, i, sp.start);
    case Cdn => CdnMatchAtComplete(s, i, sp.start, sp.end);
  }

  /** The engine tries start positions from left to right: the first one at which the pattern matches. */
  function Leftmost(pat: Pattern, s: string, i: nat): (r: Option<nat>)
    requires i <= |s|
    ensures r.Some? ==> i <= r.value <= |s| && MatchAt(pat, s, r.value).Some?
    ensures forall k :: i <= k <= |s| && (r.None? || k < r.value) ==> MatchAt(pat, s, k).None?
    decreases |s| - i
  {
    if MatchAt(pat, s, i).Some? then Some(i)
    else if i == |s| then None
    else Leftmost(pat, s, i + 1)
  }

  /** `s.match(pattern)?.[1]`: the capture group of the leftmost match, if any. */
  function Capture(pat: Pattern, s: string): (r: Option<string>)
    ensures r.Some? ==> r.value != "" && IsId(r.value)
    ensures r.Some? && pat == YouTube ==> |r.value| == IdLength
    ensures r.None? <==> forall k :: 0 <= k <= |s| ==> MatchAt(pat, s, k).None?
  {
    var start := Leftmost(pat, s, 0);
    if start.None? then
      None
    else
      var sp := MatchAt(pat, s, start.value).value;
      Some(s[sp.start..sp.end])
  }

  /** A match at `k` with none before it is the one whose capture is taken. */
  lemma CaptureOfLeftmost(pat: Pattern, s: string, k: nat)
    requires k <= |s| && MatchAt(pat, s, k).Some?
    requires forall j :: 0 <= j < k ==> MatchAt(pat, s, j).None?
    ensures Capture(pat, s) == Some(s[MatchAt(pat, s, k).value.start..MatchAt(pat, s, k).value.end])
  {
    assert Leftmost(pat, s, 0) == Some(k);
  }

  /** Both hosts of the YouTube pattern begin with `y`: it cannot match where there is none. */
  lemma NoYouTubeBefore(s: string, h: nat)
    requires h <= |s|
    requires forall k :: 0 <= k < h ==> s[k] != 'y'
    ensures forall k :: 0 <= k < h ==> MatchAt(YouTube, s, k).None?
  {
    forall k | 0 <= k < h ensures MatchAt(YouTube, s, k).None? {
      CharOfOccurrence(s, k, WatchHost, 0);
      CharOfOccurrence(s, k, ShortHost, 0);
    }
  }

  /** The CDN host begins with `i`: the CDN pattern cannot match where there is none. */
  lemma NoCdnBefore(s: string, h: nat)
    requires h <= |s|
    requires forall k :: 0 <= k < h ==> s[k] != 'i'
    ensures forall k :: 0 <= k < h ==> MatchAt(Cdn, s, k).None?
  {
    forall k | 0 <= k < h ensures MatchAt(Cdn, s, k).None? {
      CharOfOccurrence(s, k, CdnPrefix, 0);
    }
  }

  /** No route of the pattern starts anywhere in `s`. */
  ghost predicate NoMatch(pat: Pattern, s: string) {
    forall i: nat, sp: Span :: i <= |s| ==> !Matches(pat, s, i, sp)
  }

  /** The capture is absent exactly when the pattern matches nowhere. */
  lemma CaptureNoneIffNoMatch(pat: Pattern, s: string)
    ensures Capture(pat, s).None? <==> NoMatch(pat, s)
  {
    if Capture(pat, s).None? {
      forall i: nat, sp: Span | i <= |s| ensures !Matches(pat, s, i, sp) {
        if Matches(pat, s, i, sp) {
          MatchAtComplete(pat, s, i, sp);
        }
      }
    } else {
      var k: nat :| k <= |s| && MatchAt(pat, s, k).Some?;
      assert Matches(pat, s, k, MatchAt(pat, s, k).value);
    }
  }

  // ---------------------------------------------------------------------------------------------
  // extractVideoId and generateThumbnailUrl
  // ---------------------------------------------------------------------------------------------

  /** `url && (youtube?.[1] || cdn?.[1])`. An absent URL gives nothing and the empty URL gives itself,
      because `&&` returns its falsy left operand; otherwise the YouTube capture (11 identifier
      characters) if that pattern matches anywhere, else the CDN capture. */
  function ExtractVideoId(url: Option<string>): (r: Option<string>)
    ensures url.None? ==> r.None?
    ensures url == Some("") ==> r == Some("")
    ensures url.Some? && url.value != "" && r.Some? ==> r.value != "" && IsId(r.value)
    ensures url.Some? && url.value != "" && Capture(YouTube, url.value).Some? ==>
      r == Capture(YouTube, url.value) && |r.value| == IdLength
    ensures url.Some? && url.value != "" && Capture(YouTube, url.value).None? ==> r == Capture(Cdn, url.value)
  {
    if url.None? then
      None
    else if url.value == "" then
      Some("")
    else
      var first := Capture(YouTube, url.value);
      if first.Some? then first else Capture(Cdn, url.value)
  }

  /** A non-empty URL yields nothing exactly when neither pattern matches anywhere in it. */
  lemma ExtractVideoIdNone(url: string)
    requires url != ""
    ensures ExtractVideoId(Some(url)).None? <==> NoMatch(YouTube, url) && NoMatch(Cdn, url)
  {
    CaptureNoneIffNoMatch(YouTube, url);
    CaptureNoneIffNoMatch(Cdn, url);
  }

  /** `videoId && \`https://i3.ytimg.com/vi/${videoId}/maxresdefault.jpg\``. */
  function GenerateThumbnailUrl(videoId: Option<string>): (r: Option<string>)
    ensures videoId.None? ==> r.None?
    ensures videoId == Some("") ==> r == Some("")
    ensures videoId.Some? && videoId.value != "" ==>
      r.Some? && |r.value| == |ThumbnailPrefix| + |videoId.value| + |CdnSuffix|
      && r.value[..|ThumbnailPrefix|] == ThumbnailPrefix
      && r.value[|ThumbnailPrefix|..|ThumbnailPrefix| + |videoId.value|] == videoId.value
      && r.value[|ThumbnailPrefix| + |videoId.value|..] == CdnSuffix
  {
    if videoId.None? then None
    else if videoId.value == "" then Some("")
    else Some(ThumbnailPrefix + videoId.value + CdnSuffix)
  }

  // ---------------------------------------------------------------------------------------------
  // Properties
  // ---------------------------------------------------------------------------------------------

  /** A character of a string at an occurrence of `p` is the corresponding character of `p`. */
  lemma CharOfOccurrence(s: string, i: nat, p: string, t: nat)
    ensures StartsAt(s, i, p) && t < |p| ==> s[i + t] == p[t]
  {
    if StartsAt(s, i, p) && t < |p| {
      assert s[i..i + |p|][t] == p[t];
    }
  }

  /** The characters of a thumbnail URL, by region. */
  lemma ThumbnailChar(id: string, k: nat)
    ensures k < |ThumbnailPrefix| ==> (ThumbnailPrefix + id + CdnSuffix)[k] == ThumbnailPrefix[k]
    ensures |ThumbnailPrefix| <= k < |ThumbnailPrefix| + |id| ==>
      (ThumbnailPrefix + id + CdnSuffix)[k] == id[k - |ThumbnailPrefix|]
    ensures |ThumbnailPrefix| + |id| <= k < |ThumbnailPrefix + id + CdnSuffix| ==>
      (ThumbnailPrefix + id + CdnSuffix)[k] == CdnSuffix[k - |ThumbnailPrefix| - |id|]
  {
  }

  /** The only dots of a thumbnail URL are the two of the CDN host and the one before `jpg`. */
  lemma ThumbnailDots(id: string, k: nat)
    ensures IsId(id) && k < |ThumbnailPrefix + id + CdnSuffix| && (ThumbnailPrefix + id + CdnSuffix)[k] == '.' ==>
      k == |"https://i3"| || k == |"https://i3.ytimg"| || k == |ThumbnailPrefix + id + CdnSuffix| - 4
  {
    ThumbnailChar(id, k);
  }

  /** Neither host of the YouTube pattern occurs in a thumbnail URL. */
  lemma NoYouTubeHostInThumbnail(id: string)
    requires IsId(id)
    ensures forall k :: 0 <= k <= |ThumbnailPrefix + id + CdnSuffix| ==>
      !StartsAt(ThumbnailPrefix + id + CdnSuffix, k, WatchHost) && !StartsAt(ThumbnailPrefix + id + CdnSuffix, k, ShortHost)
  {
    var u := ThumbnailPrefix + id + CdnSuffix;
    var n := |u|;
    forall k | 0 <= k <= n ensures !StartsAt(u, k, WatchHost) {
      if StartsAt(u, k, WatchHost) {
        CharOfOccurrence(u, k, WatchHost, 0);
        CharOfOccurrence(u, k, WatchHost, 7);
        ThumbnailDots(id, k + 7);
        ThumbnailChar(id, k);
        assert false;
      }
    }
    forall k | 0 <= k <= n ensures !StartsAt(u, k, ShortHost) {
      if StartsAt(u, k, ShortHost) {
        CharOfOccurrence(u, k, ShortHost, 0);
        CharOfOccurrence(u, k, ShortHost, 1);
        CharOfOccurrence(u, k, ShortHost, 5);
        ThumbnailDots(id, k + 5);
        ThumbnailChar(id, k);
        ThumbnailChar(id, k + 1);
        assert false;
      }
    }
  }

  /** The three parts of a thumbnail URL embedded in other text: the CDN host, the identifier and the
      fixed file name. */
  lemma ThumbnailParts(pre: string, id: string, post: string)
    requires IsId(id)
    ensures StartsAt(pre + ThumbnailPrefix + id + CdnSuffix + post, |pre| + |"https://"|, CdnPrefix)
    ensures All(pre + ThumbnailPrefix + id + CdnSuffix + post, |pre| + |ThumbnailPrefix|, |pre| + |ThumbnailPrefix| + |id|, IsIdChar)
    ensures StartsAt(pre + ThumbnailPrefix + id + CdnSuffix + post, |pre| + |ThumbnailPrefix| + |id|, CdnSuffix)
  {
    var u := pre + ThumbnailPrefix + id + CdnSuffix + post;
    var a := pre + "https://";
    assert u == a + CdnPrefix + (id + CdnSuffix + post);
    StartsAtConcat(a, CdnPrefix, id + CdnSuffix + post);
    assert u == a + CdnPrefix + id + (CdnSuffix + post);
    AllInConcat(a + CdnPrefix, id, CdnSuffix + post, IsIdChar);
    assert u == a + CdnPrefix + id + CdnSuffix + post;
    StartsAtConcat(a + CdnPrefix + id, CdnSuffix, post);
  }

  /** Wherever a thumbnail URL is embedded, the CDN pattern matches at its host and captures the whole
      identifier. */
  lemma ThumbnailCdnMatch(pre: string, id: string, post: string)
    requires id != "" && IsId(id)
    ensures CdnMatchAt(pre + ThumbnailPrefix + id + CdnSuffix + post, |pre| + |"https://"|)
      == Some(Span(|pre| + |ThumbnailPrefix|, |pre| + |ThumbnailPrefix| + |id|))
  {
    var u := pre + ThumbnailPrefix + id + CdnSuffix + post;
    ThumbnailParts(pre, id, post);
    var i, a := |pre| + |"https://"|, |pre| + |ThumbnailPrefix|;
    var b := a + |id|;
    assert i + |CdnPrefix| == a;
    assert All(u, b, b, IsSpace) && All(u, a, a, IsSpace);
    assert CdnRoute(u, i, a, b) by {
      assert b <= b <= |u| && All(u, b, b, IsSpace) && StartsAt(u, b, CdnSuffix);
    }
    CdnMatchAtComplete(u, i, a, b);
  }

  /** In a thumbnail URL the CDN pattern first matches at the host. */
  lemma ThumbnailCdnLeftmost(id: string)
    requires id != "" && IsId(id)
    ensures MatchAt(Cdn, ThumbnailPrefix + id + CdnSuffix, |"https://"|)
      == Some(Span(|ThumbnailPrefix|, |ThumbnailPrefix| + |id|))
    ensures forall k :: 0 <= k < |"https://"| ==> MatchAt(Cdn, ThumbnailPrefix + id + CdnSuffix, k).None?
  {
    ThumbnailCdnMatch("", id, "");
    EmptyEnds(ThumbnailPrefix, id, CdnSuffix);
    ThumbnailSchemeChars(id);
    NoCdnBefore(ThumbnailPrefix + id + CdnSuffix, 8);
  }

  /** The scheme of a thumbnail URL holds no `i`. */
  lemma ThumbnailSchemeChars(id: string)
    ensures forall k :: 0 <= k < 8 ==> (ThumbnailPrefix + id + CdnSuffix)[k] != 'i'
  {
    forall k | 0 <= k < 8 ensures (ThumbnailPrefix + id + CdnSuffix)[k] != 'i' {
      ThumbnailChar(id, k);
    }
  }

  /** The CDN pattern's leftmost match in a thumbnail URL starts at the host, so its capture is the
      identifier. */
  lemma ThumbnailCdnCapture(id: string)
    requires id != "" && IsId(id)
    ensures Capture(Cdn, ThumbnailPrefix + id + CdnSuffix) == Some(id)
  {
    ThumbnailCdnLeftmost(id);
    CaptureOfLeftmost(Cdn, ThumbnailPrefix + id + CdnSuffix, 8);
    StartsAtConcat(ThumbnailPrefix, id, CdnSuffix);
  }

  /** Round trip: the extractor recovers every non-empty identifier from the thumbnail URL the generator
      builds for it, because the YouTube pattern matches nowhere in that URL. */
  lemma ThumbnailRoundTrip(id: string)
    requires id != "" && IsId(id)
    ensures GenerateThumbnailUrl(Some(id)) == Some(ThumbnailPrefix + id + CdnSuffix)
    ensures ExtractVideoId(GenerateThumbnailUrl(Some(id))) == Some(id)
  {
    var u := ThumbnailPrefix + id + CdnSuffix;
    NoYouTubeHostInThumbnail(id);
    assert Capture(YouTube, u).None?;
    ThumbnailCdnCapture(id);
  }

  /** A thumbnail URL is classified as an image. */
  lemma ThumbnailIsImage(id: string)
    requires id != ""
    ensures GetMediaType(GenerateThumbnailUrl(Some(id))) == Image
  {
    var u := ThumbnailPrefix + id + CdnSuffix;
    assert u[|u| - 4..] == ".jpg";
    JpgIsImage(u);
  }

  /** The prefixes of a short link and of a watch link. */
  const ShortLinkPrefix := "https://" + ShortHost
  const WatchLinkPrefix := "https://www." + WatchHost + "watch?v="

  /** A short link `https://youtu.be/<id>` yields its 11-character identifier whatever follows it: the
      leftmost match starts at the host and the pattern takes exactly eleven characters. Layout:
      `https://` at 0-7, `youtu.be/` at 8-16, the identifier at 17-27. */
  lemma ShortLinkExtract(id: string, rest: string)
    requires |id| == IdLength && IsId(id)
    ensures ExtractVideoId(Some(ShortLinkPrefix + id + rest)) == Some(id)
  {
    var u := ShortLinkPrefix + id + rest;
    forall k | 0 <= k < 8 ensures u[k] != 'y' {
      assert u[k] == "https://"[k];
    }
    NoYouTubeBefore(u, 8);
    assert u == "https://" + ShortHost + (id + rest);
    StartsAtConcat("https://", ShortHost, id + rest);
    assert !StartsAt(u, 8, WatchHost) by {
      CharOfOccurrence(u, 8, ShortHost, 5);
      CharOfOccurrence(u, 8, WatchHost, 5);
    }
    AllInConcat(ShortLinkPrefix, id, rest, IsIdChar);
    assert MatchAt(YouTube, u, 8) == Some(Span(17, 28));
    CaptureOfLeftmost(YouTube, u, 8);
    assert u[17..28] == id;
  }

  /** With no slash after `j` the segment alternative cannot find its slashes. */
  lemma SegmentCaptureNoSlash(s: string, j: nat)
    requires j <= |s|
    requires forall k :: j <= k < |s| ==> s[k] != '/'
    ensures SegmentCapture(s, j).None?
  {
  }

  /** The lazy query alternative takes the first `?v=` or `&v=` that is followed by an identifier. */
  lemma QueryCaptureFirst(s: string, j: nat, p: nat)
    requires j <= |s|
    requires QueryRoute(s, j, p) && IdAt(s, p)
    requires forall q :: j <= q < p - 3 ==> s[q] != '?' && s[q] != '&'
    ensures QueryCapture(s, j) == Some(p)
  {
  }

  /** In a watch link the YouTube pattern, tried at the host, captures the identifier after `?v=`:
      nothing after the host holds a slash, so the segment alternative fails, and the lazy query
      alternative stops at the first `?v=`. */
  lemma WatchLinkMatch(id: string, rest: string)
    requires |id| == IdLength && IsId(id)
    requires forall k :: 0 <= k < |rest| ==> rest[k] != '/'
    ensures MatchAt(YouTube, WatchLinkPrefix + id + rest, |"https://www."|) == Some(IdSpan(|WatchLinkPrefix|))
  {
    var u := WatchLinkPrefix + id + rest;
    WatchLinkChars(id, rest);
    SegmentCaptureNoSlash(u, 24);
    assert QueryRoute(u, 24, 32);
    QueryCaptureFirst(u, 24, 32);
  }

  /** The characters of a watch link after its host. Layout: `https://www.` at 0-11, `youtube.com/` at
      12-23, `watch?v=` at 24-31, the identifier at 32-42, then `rest`. */
  lemma WatchLinkChars(id: string, rest: string)
    requires |id| == IdLength && IsId(id)
    requires forall k :: 0 <= k < |rest| ==> rest[k] != '/'
    ensures StartsAt(WatchLinkPrefix + id + rest, 12, WatchHost)
    ensures (WatchLinkPrefix + id + rest)[24..32] == "watch?v="
    ensures IdAt(WatchLinkPrefix + id + rest, 32)
    ensures forall k :: 24 <= k < |WatchLinkPrefix + id + rest| ==> (WatchLinkPrefix + id + rest)[k] != '/'
  {
    var u := WatchLinkPrefix + id + rest;
    assert u == "https://www." + WatchHost + ("watch?v=" + id + rest);
    StartsAtConcat("https://www.", WatchHost, "watch?v=" + id + rest);
    AllInConcat(WatchLinkPrefix, id, rest, IsIdChar);
    assert u[24..32] == "watch?v=";
    forall k | 24 <= k < |u| ensures u[k] != '/' {
      if k < 32 {
        assert u[k] == "watch?v="[k - 24];
      } else if k < 43 {
        assert u[k] == id[k - 32];
      } else {
        assert u[k] == rest[k - 43];
      }
    }
  }

  /** A watch link `https://www.youtube.com/watch?v=<id>` yields its identifier when nothing after it
      holds a slash. */
  lemma WatchLinkExtract(id: string, rest: string)
    requires |id| == IdLength && IsId(id)
    requires forall k :: 0 <= k < |rest| ==> rest[k] != '/'
    ensures ExtractVideoId(Some(WatchLinkPrefix + id + rest)) == Some(id)
  {
    var u := WatchLinkPrefix + id + rest;
    forall k | 0 <= k < 12 ensures u[k] != 'y' {
      assert u[k] == "https://www."[k];
    }
    NoYouTubeBefore(u, 12);
    WatchLinkMatch(id, rest);
    CaptureOfLeftmost(YouTube, u, 12);
    assert u[32..43] == id;
  }

  /** The only dot of a short link is the one of its host, at 13 in `https://youtu.be/`. */
  lemma ShortLinkDots(id: string, k: nat)
    ensures IsId(id) && k < |ShortLinkPrefix + id| && (ShortLinkPrefix + id)[k] == '.' ==> k == 13
  {
    if k < |ShortLinkPrefix| {
      assert (ShortLinkPrefix + id)[k] == ShortLinkPrefix[k];
    }
  }

  /** A short link does not contain `youtube.com`: its only dot is preceded by `youtu`. */
  lemma ShortLinkLacksWatchHost(id: string)
    requires IsId(id)
    ensures !Includes(ShortLinkPrefix + id, "youtube.com")
  {
    var u := ShortLinkPrefix + id;
    if Includes(u, "youtube.com") {
      var k :| 0 <= k <= |u| && StartsAt(u, k, "youtube.com");
      CharOfOccurrence(u, k, "youtube.com", 0);
      CharOfOccurrence(u, k, "youtube.com", 7);
      ShortLinkDots(id, k + 7);
      assert false;
    }
  }

  /** The classifier and the extractor disagree on short links: `https://youtu.be/<id>` has no
      `youtube.com` in it, so it is a site link although an identifier is extracted from it. */
  lemma ShortLinkIsSite(id: string)
    requires |id| == IdLength && IsId(id)
    ensures GetMediaType(Some(ShortLinkPrefix + id)) == Site
    ensures ExtractVideoId(Some(ShortLinkPrefix + id)) == Some(id)
  {
    var u := ShortLinkPrefix + id;
    assert u == ShortLinkPrefix + id + "";
    ShortLinkExtract(id, "");
    ShortLinkLacksWatchHost(id);
    IdIsNotImage(ShortLinkPrefix, id);
  }

  /** The classifier and the extractor agree on watch links: `https://www.youtube.com/watch?v=<id>` is a
      video, and the extractor finds its identifier. */
  lemma WatchLinkIsVideo(id: string)
    requires |id| == IdLength && IsId(id)
    ensures GetMediaType(Some(WatchLinkPrefix + id)) == Video
    ensures ExtractVideoId(Some(WatchLinkPrefix + id)) == Some(id)
  {
    assert WatchLinkPrefix + id == WatchLinkPrefix + id + "";
    WatchLinkExtract(id, "");
    WatchLinkHasHost(id);
    IdIsNotImage(WatchLinkPrefix, id);
  }

  /** A watch link contains `youtube.com`. */
  lemma WatchLinkHasHost(id: string)
    ensures Includes(WatchLinkPrefix + id, "youtube.com")
  {
    var u := WatchLinkPrefix + id;
    assert u[12..23] == WatchHost[..11];
    assert StartsAt(u, 12, "youtube.com");
  }

  /** A URL that ends in an identifier of at least five characters has no image extension: its last
      dot-free stretch is too long. */
  lemma IdIsNotImage(pre: string, id: string)
    requires |id| >= 5 && IsId(id)
    ensures !HasImageExtension(pre + id)
  {
    var u := pre + id;
    var n := |u|;
    assert u[n - 4] == id[|id| - 4] && u[n - 5] == id[|id| - 5];
    assert IsIdChar(u[n - 4]) && IsIdChar(u[n - 5]);
    assert LowerChar(u[n - 4]) != ".jpg"[0] && LowerChar(u[n - 5]) != ".jpeg"[0];
  }

  /** The CDN pattern matches in a short link followed by `?` and a thumbnail URL. */
  lemma CdnMatchAfterShortLink(id: string, other: string)
    requires other != "" && IsId(other)
    ensures Capture(Cdn, ShortLinkPrefix + id + ("?" + ThumbnailPrefix + other + CdnSuffix)).Some?
  {
    var pre := ShortLinkPrefix + id + "?";
    var u := ShortLinkPrefix + id + ("?" + ThumbnailPrefix + other + CdnSuffix);
    ThumbnailCdnMatch(pre, other, "");
    Regroup(ShortLinkPrefix, id, "?", ThumbnailPrefix, other, CdnSuffix);
    assert MatchAt(Cdn, u, |pre| + 8).Some?;
  }

  /** Precedence: when both patterns match, the YouTube capture is returned. A short link followed by a
      thumbnail URL of another identifier yields the short link's identifier. */
  lemma YouTubePatternFirst(id: string, other: string)
    requires |id| == IdLength && IsId(id)
    requires other != "" && IsId(other)
    ensures Capture(Cdn, ShortLinkPrefix + id + ("?" + ThumbnailPrefix + other + CdnSuffix)).Some?
    ensures ExtractVideoId(Some(ShortLinkPrefix + id + ("?" + ThumbnailPrefix + other + CdnSuffix))) == Some(id)
  {
    CdnMatchAfterShortLink(id, other);
    ShortLinkExtract(id, "?" + ThumbnailPrefix + other + CdnSuffix);
  }

  /** The segment alternative comes before the query alternative and backtracks to the LAST slash that an
      identifier follows: a watch link followed by `/x/<other>` yields `<other>`, not the identifier after
      `?v=`. */
  lemma SegmentAlternativeFirst(id: string, other: string)
    requires |id| == IdLength && IsId(id)
    requires |other| == IdLength && IsId(other)
    ensures ExtractVideoId(Some(WatchLinkPrefix + id + "/x/" + other)) == Some(other)
  {
    var u := WatchLinkPrefix + id + "/x/" + other;
    forall k | 0 <= k < 12 ensures u[k] != 'y' {
      assert u[k] == "https://www."[k];
    }
    NoYouTubeBefore(u, 12);
    SegmentMatchAfterWatchLink(id, other);
    CaptureOfLeftmost(YouTube, u, 12);
    assert u == WatchLinkPrefix + id + "/x/" + other + "";
    StartsAtConcat(WatchLinkPrefix + id + "/x/", other, "");
  }

  /** The characters of `<watch link><id>/x/<other>` after its host. Layout: `https://www.` at 0-11,
      `youtube.com/` at 12-23, `watch?v=` at 24-31, `<id>` at 32-42, `/x/` at 43-45 and `<other>` at
      46-56; the only slashes after the host are at 43 and 45. */
  lemma WatchLinkSlashChars(id: string, other: string)
    requires |id| == IdLength && IsId(id)
    requires |other| == IdLength && IsId(other)
    ensures StartsAt(WatchLinkPrefix + id + "/x/" + other, 12, WatchHost)
    ensures |WatchLinkPrefix + id + "/x/" + other| == 57
    ensures forall k :: 24 <= k < 57 ==> NotSpace((WatchLinkPrefix + id + "/x/" + other)[k])
    ensures forall k :: 24 <= k < 57 && k != 43 && k != 45 ==> (WatchLinkPrefix + id + "/x/" + other)[k] != '/'
    ensures (WatchLinkPrefix + id + "/x/" + other)[43] == '/' && (WatchLinkPrefix + id + "/x/" + other)[45] == '/'
    ensures (WatchLinkPrefix + id + "/x/" + other)[44] == 'x'
    ensures IdAt(WatchLinkPrefix + id + "/x/" + other, 46)
  {
    var u := WatchLinkPrefix + id + "/x/" + other;
    assert u == "https://www." + WatchHost + ("watch?v=" + id + "/x/" + other);
    StartsAtConcat("https://www.", WatchHost, "watch?v=" + id + "/x/" + other);
    assert u[24..32] == "watch?v=";
    assert u == (WatchLinkPrefix + id + "/x/") + other + "";
    AllInConcat(WatchLinkPrefix + id + "/x/", other, "", IsIdChar);
    forall k | 24 <= k < 57 ensures NotSpace(u[k]) && (k != 43 && k != 45 ==> u[k] != '/') {
      if k < 32 {
        assert u[k] == "watch?v="[k - 24];
      } else if k < 43 {
        assert u[k] == id[k - 32];
      } else if k >= 46 {
        assert u[k] == other[k - 46];
      }
    }
  }

  /** At the host of `<watch link><id>/x/<other>` the YouTube pattern captures `<other>`. */
  lemma SegmentMatchAfterWatchLink(id: string, other: string)
    requires |id| == IdLength && IsId(id)
    requires |other| == IdLength && IsId(other)
    ensures MatchAt(YouTube, WatchLinkPrefix + id + "/x/" + other, 12) == Some(Span(46, 57))
  {
    var u := WatchLinkPrefix + id + "/x/" + other;
    WatchLinkSlashChars(id, other);
    assert All(u, 24, 43, NotSlashSpace) && All(u, 44, 45, NotSpace);
    assert SegmentRoute(u, 24, 46);
    var p := SegmentCapture(u, 24).value;
    assert u[p - 1] == '/' && IdAt(u, p);
    assert p - 1 == 43 || p - 1 == 45;
    assert p == 46;
  }
}
