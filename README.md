# List page URL rules, modelled in Dafny

The repository is a single React page (`src/pages/index.tsx`). It fetches a list of rows and shows each
row as a card. A card holds a picture, a YouTube thumbnail that turns into an inline player when clicked,
or a link to an outside site. This project models the logic inside that page:

- **Media classifier** (`getMediaType`, module `Media`). It sorts an optional URL into image, video or
  site. An absent or empty URL is a site. An ASCII-lower-cased `.jpeg`/`.jpg` suffix comes before the
  case-sensitive `youtube.com` test.
- **Video-id extractor** (`extractVideoId`, module `VideoId`). Each of its two regular expressions is
  modelled twice:
  - a ghost *route* predicate that says which captures some way of matching can produce;
  - a deterministic matcher that picks the engine's capture.

  The engine's choice follows JavaScript's rules: the leftmost start position, alternatives in written
  order, greedy `[^/\s]+` and `\S+` longest first, and lazy `\S*?` shortest first. Each matcher is proved
  sound against its route and complete. `String.prototype.match` is the leftmost match (`Leftmost`) and
  its capture group (`Capture`). JavaScript truthiness is kept: an absent URL yields nothing, and `""`
  yields `""`.
- **Thumbnail generator** (`generateThumbnailUrl`). It fills the CDN URL template, and the extractor
  recovers every non-empty identifier from the result.
- **Page state and display** (module `Page`). The class `ListPage` holds the two state cells, `rows` and
  `playingVideoId`. It has methods for the fetch result, the thumbnail click and the end of the video.
  Pure functions decide what each card shows: the loading message, the media block, or the player.

JavaScript `undefined` and `null` are both `None` of `Option<string>`. They differ in one place. At
line 90, `null === undefined` is false, so `ShowsPlayer` requires the playing cell to be `Some`.

Four consequences of the code are worth stating explicitly:
- `handleVideoEnd` sets the playing cell to `null`, not to `""` (src/pages/index.tsx:57).
- The CDN pattern's capture `([a-zA-Z0-9_-]+)` may have any non-zero length, not only 11
  (src/pages/index.tsx:51).
- The player test compares identifiers, not rows (src/pages/index.tsx:90), so every row with the
  playing video shows the player (`SameVideoPlaysTwice`).
- A `youtube.com` URL with a valid identifier after `?v=` can still yield a different identifier. The
  segment alternative `[^\/\n\s]+\/\S+\/` comes first in the pattern (src/pages/index.tsx:50)
  (`SegmentAlternativeFirst`).

## Model

| member | source | states |
|---|---|---|
| `Strings.RunEnd` | src/pages/index.tsx:50-51 | A greedy character-class quantifier stops at the first character outside the class, or at the end of the string. |
| `Media.LowerEndsWith` | src/pages/index.tsx:37 | Lower-casing the whole URL and then testing `endsWith` is the same as a character-by-character case-insensitive suffix test. |
| `Media.GetMediaType` | src/pages/index.tsx:32-46 | An absent or empty URL is a site. A URL is an image iff it has a `.jpeg`/`.jpg` suffix, ignoring ASCII case. Otherwise it is a video iff it contains `youtube.com` (case-sensitive), and a site if not. |
| `Media.ImageTestComesFirst` | src/pages/index.tsx:37-43 | A `youtube.com` URL ending in `.JPG` is an image, not a video. |
| `Media.JpgIsImage` | src/pages/index.tsx:37-39 | Any URL ending in `.jpg` is an image. |
| `VideoId.LastSlashBeforeId` | src/pages/index.tsx:50 | The greedy `\S+\/` backtracks to the last slash in its range that 11 identifier characters follow; no later slash qualifies. |
| `VideoId.SegmentCapture` | src/pages/index.tsx:50 | Whatever the `[^\/\n\s]+\/\S+\/` alternative captures is a route of that alternative followed by an identifier. Whenever such a route exists the matcher captures, and it takes the last one, as greedy `\S+` backtracks. |
| `VideoId.SegmentCaptureNoSlash` | src/pages/index.tsx:50 | Without a slash after the host, the segment alternative fails. |
| `VideoId.QueryCapture` | src/pages/index.tsx:50 | The lazy `\S*?[?&]v=` alternative captures the first `?v=`/`&v=` before any blank that an identifier follows, and finds one whenever a route exists. |
| `VideoId.QueryCaptureFirst` | src/pages/index.tsx:50 | With no `?` or `&` before a route, that route is the one the query alternative captures. |
| `VideoId.YouTubeMatchAt` | src/pages/index.tsx:50 | At a start position, the YouTube pattern's capture is 11 identifier characters reached by one of its routes. |
| `VideoId.YouTubeMatchAtOrder` | src/pages/index.tsx:50 | The alternatives are tried in written order. After `youtube.com/`, a segment route wins and the last one is taken. Failing that, `v/`, `embed/` and `e/` are tried in that order. Failing those, the query alternative matches iff one of its routes exists, and the first is taken. Without `youtube.com/`, only `youtu.be/` followed by an identifier matches. |
| `VideoId.YouTubeMatchAtComplete` | src/pages/index.tsx:50 | If any route of the YouTube pattern starts at a position, the matcher matches there. |
| `VideoId.CdnMatchAt` | src/pages/index.tsx:51 | At a start position, the CDN pattern's capture is a route: the host, blanks, a non-empty identifier, blanks, `/maxresdefault.jpg`. |
| `VideoId.CdnMatchAtComplete` | src/pages/index.tsx:51 | Any route of the CDN pattern at a position equals the matcher's result there. So the pattern has at most one route at a position, and when it has one the matcher returns it. |
| `VideoId.MatchAt` | src/pages/index.tsx:50-51 | Every capture either pattern returns at a position is a route of that pattern. |
| `VideoId.MatchAtComplete` | src/pages/index.tsx:50-51 | Either pattern matches at every position where one of its routes starts. |
| `VideoId.Leftmost` | src/pages/index.tsx:50-51 | `match` takes the first start position at which the pattern matches; no earlier position matches. |
| `VideoId.Capture` | src/pages/index.tsx:50-51 | `match(...)?.[1]` is a non-empty identifier, 11 characters long for the YouTube pattern. It is absent iff the matcher matches at no position. |
| `VideoId.CaptureOfLeftmost` | src/pages/index.tsx:50-51 | A match with none before it is the one whose capture is taken. |
| `VideoId.CaptureNoneIffNoMatch` | src/pages/index.tsx:50-51 | The capture is absent iff no route of the pattern starts anywhere in the string. |
| `VideoId.ExtractVideoId` | src/pages/index.tsx:48-51 | An absent URL gives nothing and `""` gives `""`. Otherwise the result is a non-empty identifier. It is the YouTube pattern's 11-character capture when that pattern matches, and the CDN pattern's capture (or nothing) when it does not. |
| `VideoId.ExtractVideoIdNone` | src/pages/index.tsx:48-51 | A non-empty URL yields nothing iff neither pattern matches anywhere in it. |
| `VideoId.GenerateThumbnailUrl` | src/pages/index.tsx:53-54 | An absent id gives no URL and `""` gives `""`. A non-empty id gives exactly `https://i3.ytimg.com/vi/`, then the id, then `/maxresdefault.jpg`. |
| `VideoId.ThumbnailRoundTrip` | src/pages/index.tsx:48-54 | For every non-empty identifier over `[A-Za-z0-9_-]`, the extractor recovers it from the generated thumbnail URL. |
| `VideoId.ThumbnailIsImage` | src/pages/index.tsx:37-38 | A generated thumbnail URL is classified as an image. |
| `VideoId.NoYouTubeHostInThumbnail` | src/pages/index.tsx:50 | Neither `youtube.com/` nor `youtu.be/` occurs in a thumbnail URL, so the YouTube pattern cannot match there. |
| `VideoId.ThumbnailCdnMatch` | src/pages/index.tsx:51 | Wherever a thumbnail URL is embedded, the CDN pattern matches at its host and captures the whole identifier. |
| `VideoId.ThumbnailCdnCapture` | src/pages/index.tsx:51 | The CDN capture of a thumbnail URL is its identifier. |
| `VideoId.ShortLinkExtract` | src/pages/index.tsx:50 | `https://youtu.be/<id>` followed by anything yields its 11-character `<id>`. |
| `VideoId.WatchLinkMatch` | src/pages/index.tsx:50 | In `https://www.youtube.com/watch?v=<id>`, the pattern tried at the host captures `<id>` through the query alternative. |
| `VideoId.WatchLinkExtract` | src/pages/index.tsx:48-51 | `https://www.youtube.com/watch?v=<id>` followed by anything without a slash yields `<id>`. |
| `VideoId.ShortLinkIsSite` | src/pages/index.tsx:41-45 | A `youtu.be` short link is classified as a site, although the extractor does find its identifier. |
| `VideoId.WatchLinkIsVideo` | src/pages/index.tsx:37-51 | A watch link `https://www.youtube.com/watch?v=<id>` is classified as a video, and the extractor finds its identifier. |
| `VideoId.YouTubePatternFirst` | src/pages/index.tsx:50-51 | An instance of the precedence in `ExtractVideoId`: a short link followed by `?` and a thumbnail URL of another identifier matches both patterns and yields the short link's identifier. |
| `VideoId.SegmentAlternativeFirst` | src/pages/index.tsx:50 | The segment alternative wins over `?v=`: `watch?v=<id>/x/<other>` yields `<other>`. |
| `VideoId.SegmentMatchAfterWatchLink` | src/pages/index.tsx:50 | In that URL, the greedy `\S+` backtracks to the last slash that an identifier follows. |
| `VideoId.IdIsNotImage` | src/pages/index.tsx:37 | A URL ending in five or more identifier characters has no image extension. |
| `Strings.IsSpace` | src/pages/index.tsx:50-51 | A definition taken from the source: JavaScript's `\s` class, the ASCII blanks plus the Unicode space separators, line and paragraph separators and the byte-order mark. |
| `Strings.EndsWith` | src/pages/index.tsx:37 | A definition taken from the source: `String.prototype.endsWith`. |
| `Strings.Includes` | src/pages/index.tsx:41 | A definition taken from the source: `String.prototype.includes`, an occurrence at some position. |
| `Strings.LowerChar` | src/pages/index.tsx:37 | `toLowerCase` on one character, ASCII only. The result is never an ASCII capital: capitals map to the matching small letter, and every other character is kept. |
| `Strings.Lower` | src/pages/index.tsx:37 | `toLowerCase` on a string: same length, each character lowered, and no ASCII capital left. |
| `Strings.NotSpace` | src/pages/index.tsx:50-51 | A definition taken from the source: JavaScript's `\S`, the complement of `\s`. |
| `Strings.IsIdChar` | src/pages/index.tsx:50-51 | A definition taken from the source: the class `[a-zA-Z0-9_-]`. |
| `VideoId.IdAt` | src/pages/index.tsx:50 | A definition taken from the source: `([a-zA-Z0-9_-]{11})`, eleven identifier characters from a position. |
| `VideoId.NotSlashSpace` | src/pages/index.tsx:50 | A definition taken from the source: the class `[^\/\n\s]`. |
| `VideoId.SegmentRoute` | src/pages/index.tsx:50 | A definition taken from the source: some way for `[^\/\n\s]+\/\S+\/` to match from a position, with the quantified stretches stated existentially. |
| `VideoId.QueryRoute` | src/pages/index.tsx:50 | A definition taken from the source: some way for `\S*?[?&]v=` to match from a position. |
| `VideoId.PathRoute` | src/pages/index.tsx:50 | A definition taken from the source: the alternative of `v`, `e` or `embed` and then a slash, written out as `v/`, `embed/` or `e/`, followed by an identifier. |
| `VideoId.YouTubeRoute` | src/pages/index.tsx:50 | A definition taken from the source: some way for the whole YouTube pattern to match at a position, with its capture at a given place. |
| `VideoId.CdnRoute` | src/pages/index.tsx:51 | A definition taken from the source: some way for `i3\.ytimg\.com\/vi\/\s*([a-zA-Z0-9_-]+)\s*\/maxresdefault\.jpg` to match at a position, capturing a given span. |
| `VideoId.Matches` | src/pages/index.tsx:50-51 | A definition taken from the source: a pattern has a route at a position with a given capture span. |
| `VideoId.NoMatch` | src/pages/index.tsx:50-51 | A definition taken from the source: no route of the pattern starts anywhere in the string, which is when `match` returns `null`. |
| `Page.Truthy` | src/pages/index.tsx:33-80 | A definition taken from the source: JavaScript truthiness of an optional string, used by `!url` (:33), `url &&` (:49), `videoId &&` (:54), `row.img &&` and `!playingVideoId` (:66), and the `""` fallback of the click (:80). Absent and `""` are falsy. |
| `Page.ListPage.View` | src/pages/index.tsx:59-101 | A definition taken from the source: the page the component renders from its two state cells, `Render(rows, playingVideoId)`. |
| `Page.ClickTarget` | src/pages/index.tsx:80 | The click's argument, the extraction or else `""`: `""` iff the extraction is falsy, otherwise the extracted identifier, drawn from `[A-Za-z0-9_-]`. |
| `Page.ShowsMedia` | src/pages/index.tsx:66 | A definition taken from the source: `row.img && !playingVideoId`, both in JavaScript truthiness. |
| `Page.ShowsPlayer` | src/pages/index.tsx:90 | `playingVideoId === extractVideoId(row.img)`: the player needs a set cell and a present URL, and the cell is `""` exactly when the URL is `""`. |
| `Page.MediaOf` | src/pages/index.tsx:68-87 | The type switch: a picture iff the URL has an image extension, a thumbnail iff it is a non-image `youtube.com` URL, and otherwise a site link. The picture and the link point at the URL itself. A thumbnail's click passes the extracted identifier or `""`, and its source is the CDN URL of that identifier (absent when there is none). |
| `Page.CardOf` | src/pages/index.tsx:63-101 | A card carries the row's key and title. Its media block shows iff the URL is truthy and nothing truthy plays, and it is the block the type switch picks for the URL. The player shows iff the playing cell is set and equals the row's extraction, and never together with the media block. |
| `Page.Render` | src/pages/index.tsx:62-101 | The loading message shows iff the row list is empty. There is one card per row, in order, and each is that row's card: keyed by the row id, titled with its name, with the media block and player the display rules give. |
| `Page.RowWithoutMedia` | src/pages/index.tsx:66-90 | A row without a URL shows only its title: no media block and no player. |
| `Page.PlayersShareId` | src/pages/index.tsx:90 | A card shows the player only if the playing cell is set and equals that row's extracted identifier. |
| `Page.AfterClick` | src/pages/index.tsx:66-90 | After a click on a thumbnail with an identifier, every media block is hidden. Exactly the rows whose extracted identifier is the clicked one show the player. |
| `Page.ClickWithoutId` | src/pages/index.tsx:66-90 | A click on a thumbnail without an identifier stores `""`. All media blocks stay visible, and the player appears exactly on the rows whose URL is `""`. |
| `Page.AfterVideoEnd` | src/pages/index.tsx:57-90 | With the playing cell `null`, no player is shown, and every row with a non-empty URL shows its media block. |
| `Page.WatchLinkCard` | src/pages/index.tsx:66-82 | While nothing plays, a watch-link row shows a video thumbnail at the CDN URL of its identifier, and its click passes that identifier. |
| `Page.SameVideoPlaysTwice` | src/pages/index.tsx:90 | Two rows with the same video both show the player. |
| `Page.ListPage.constructor` | src/pages/index.tsx:15-17 | On mount the list is empty, nothing plays, and the loading message shows. |
| `Page.ListPage.FetchCompleted` | src/pages/index.tsx:21-26 | A response replaces the list. A failure leaves it unchanged, so an empty list stays empty and the page stays loading. |
| `Page.ListPage.HandleThumbnailClick` | src/pages/index.tsx:56 | The given identifier becomes the playing one, and the rows are unchanged. |
| `Page.ListPage.HandleVideoEnd` | src/pages/index.tsx:57 | The playing cell becomes `null`, and the rows are unchanged. |
| `Page.ListPage.ClickThumbnail` | src/pages/index.tsx:75-80 | Clicking a shown video thumbnail stores the extracted identifier, or `""` when there is none. |

## Left out

- The `axios.get` request, JSON decoding and the `console.error` call (src/pages/index.tsx:19-30). These are network I/O. The outcome of the request is a `Result` parameter of `FetchCompleted`.
- JSX markup, styling, `alt` text, and the `<img>`, `<a>` and `<iframe>` attributes. A card records which blocks are present, the picture or link URL, the thumbnail URL and the click identifier. The iframe's `src` (the row's URL) is not recorded.
- Whether the browser ever fires `onEnded` on the iframe. That is browser behaviour; `HandleVideoEnd` models the handler itself.
- React's `useState` scheduling and re-rendering. The two cells are plain fields, updated synchronously.
- The `success` flag of the response, which the page never reads.
- Full Unicode `toLowerCase`. Lower-casing is ASCII-only. For the `.jpeg`/`.jpg` test this loses nothing: no non-ASCII character lower-cases to `.`, `j`, `p`, `e` or `g`. `İ` (U+0130), whose lower case is two characters long, ends in a combining dot.
- JavaScript strings are UTF-16 code units, and Dafny `char` is a Unicode scalar value. Surrogate pairs are not modelled.
- A general regular-expression engine. Only the two patterns of the page are modelled, as hand-written matchers.
