/** The list page (`ListaOlimpiadas`): the fetched rows, the one "playing video" cell, and the rules that
    decide what each row's card shows. Markup and styling are not modelled; a card records only which
    blocks are present and what they point at. */
module Page {
  import opened Wrappers
  import opened Strings
  import opened Media
  import opened VideoId

  /** One item of the fetched list; `img` is the optional media URL. */
  datatype Row = Row(id: int, name: string, img: Option<string>)

  /** JavaScript truthiness of a `string | undefined` or `string | null`: absent and `""` are falsy. */
  predicate Truthy(s: Option<string>) {
    s.Some? && s.value != ""
  }

  /** The media block of a card: a picture, a clickable video thumbnail (its `src` and the identifier its
      click handler passes), or a link that opens the site. */
  datatype MediaBlock =
    | Picture(src: string)
    | Thumbnail(thumbnail: Option<string>, clickId: string)
    | SiteLink(href: string)

  /** A card: its key and title, the media block if shown, and whether the inline player is shown. */
  datatype Card = Card(key: int, title: string, media: Option<MediaBlock>, player: bool)

  /** The page: the loading message flag and one card per row, in order. */
  datatype PageView = PageView(loading: bool, cards: seq<Card>)

  /** The identifier a thumbnail click passes: `extractVideoId(img) || ""`. */
  function ClickTarget(img: Option<string>): (r: string)
    ensures r == "" <==> !Truthy(ExtractVideoId(img))
    ensures r != "" ==> ExtractVideoId(img) == Some(r) && IsId(r)
  {
    var v := ExtractVideoId(img);
    if Truthy(v) then v.value else ""
  }

  /** `row.img && !playingVideoId`. */
  predicate ShowsMedia(img: Option<string>, playing: Option<string>) {
    Truthy(img) && !Truthy(playing)
  }

  /** `playingVideoId === extractVideoId(row.img)`: the playing cell is `string | null` and the extraction
      `string | undefined`, and `null` is never `===` to `undefined`, so nothing plays while the cell is
      `null`. */
  predicate ShowsPlayer(img: Option<string>, playing: Option<string>)
    ensures ShowsPlayer(img, playing) ==> playing.Some? && img.Some?
    ensures ShowsPlayer(img, playing) ==> (playing.value == "" <==> img.value == "")
  {
    playing.Some? && ExtractVideoId(img) == Some(playing.value)
  }

  /** The media block chosen by the classifier for a non-empty URL. */
  function MediaOf(img: string): (m: MediaBlock)
    ensures m.Picture? <==> img != "" && HasImageExtension(img)
    ensures m.Thumbnail? <==> img != "" && !HasImageExtension(img) && Includes(img, "youtube.com")
    ensures m.Picture? ==> m.src == img
    ensures m.SiteLink? ==> m.href == img
    ensures m.Thumbnail? ==> m.clickId == ClickTarget(Some(img))
    ensures m.Thumbnail? ==>
      m.thumbnail == (if m.clickId == "" then None else Some(ThumbnailPrefix + m.clickId + CdnSuffix))
  {
    match GetMediaType(Some(img))
    case Image => Picture(img)
    case Video => Thumbnail(GenerateThumbnailUrl(ExtractVideoId(Some(img))), ClickTarget(Some(img)))
    case Site => SiteLink(img)
  }

  /** The card of one row, `rows.map(...)`'s body. */
  function CardOf(row: Row, playing: Option<string>): (c: Card)
    ensures c.key == row.id && c.title == row.name
    ensures c.media.Some? <==> Truthy(row.img) && !Truthy(playing)
    ensures c.player <==> playing.Some? && ExtractVideoId(row.img) == playing
    ensures c.media.Some? ==> c.media.value == MediaOf(row.img.value)
    ensures !(c.media.Some? && c.player)
  {
    Card(row.id, row.name,
         if ShowsMedia(row.img, playing) then Some(MediaOf(row.img.value)) else None,
         ShowsPlayer(row.img, playing))
  }

  /** The whole page for the current state: `rows.length === 0 && <p>Carregando...</p>` and `rows.map(...)`. */
  function Render(rows: seq<Row>, playing: Option<string>): (v: PageView)
    ensures v.loading <==> |rows| == 0
    ensures |v.cards| == |rows|
    ensures forall k :: 0 <= k < |rows| ==> v.cards[k].key == rows[k].id && v.cards[k].title == rows[k].name
    ensures forall k :: 0 <= k < |rows| ==> v.cards[k] == CardOf(rows[k], playing)
  {
    PageView(|rows| == 0, seq(|rows|, k requires 0 <= k < |rows| => CardOf(rows[k], playing)))
  }

  /** A row without a media URL shows only its title: no media block and no player. */
  lemma RowWithoutMedia(row: Row, playing: Option<string>)
    requires row.img.None?
    ensures CardOf(row, playing).media.None? && !CardOf(row, playing).player
  {
  }

  /** Only one video identifier plays at a time: every card that shows the player belongs to a row whose
      extracted identifier is the playing one. */
  lemma PlayersShareId(rows: seq<Row>, playing: Option<string>, k: nat)
    requires k < |rows| && Render(rows, playing).cards[k].player
    ensures playing.Some? && ExtractVideoId(rows[k].img) == playing
  {
  }

  /** After a click on a thumbnail whose identifier was extracted, every media block is hidden and exactly
      the rows with that identifier show the player. */
  lemma AfterClick(rows: seq<Row>, img: Option<string>)
    requires Truthy(ExtractVideoId(img))
    ensures forall k :: 0 <= k < |rows| ==> Render(rows, Some(ClickTarget(img))).cards[k].media.None?
    ensures forall k :: 0 <= k < |rows| ==>
      (Render(rows, Some(ClickTarget(img))).cards[k].player <==> ExtractVideoId(rows[k].img) == ExtractVideoId(img))
  {
  }

  /** A click on a thumbnail whose identifier could not be extracted stores `""`. That is falsy, so every
      media block stays visible, and it equals what the extractor returns for an empty URL, so the player
      appears exactly on the rows whose URL is `""`. */
  lemma ClickWithoutId(rows: seq<Row>, img: Option<string>)
    requires !Truthy(ExtractVideoId(img))
    ensures ClickTarget(img) == ""
    ensures forall k :: 0 <= k < |rows| ==>
      (Render(rows, Some(ClickTarget(img))).cards[k].media.Some? <==> Truthy(rows[k].img))
    ensures forall k :: 0 <= k < |rows| ==>
      (Render(rows, Some(ClickTarget(img))).cards[k].player <==> rows[k].img == Some(""))
  {
    forall k | 0 <= k < |rows| ensures ShowsPlayer(rows[k].img, Some("")) <==> rows[k].img == Some("") {
      var e := ExtractVideoId(rows[k].img);
      if rows[k].img.Some? && rows[k].img.value != "" && e.Some? {
        assert e.value != "";
      }
    }
  }

  /** After the video ends no player is shown, and every row with a non-empty URL shows its media block. */
  lemma AfterVideoEnd(rows: seq<Row>)
    ensures forall k :: 0 <= k < |rows| ==> !Render(rows, None).cards[k].player
    ensures forall k :: 0 <= k < |rows| ==> (Render(rows, None).cards[k].media.Some? <==> Truthy(rows[k].img))
  {
  }

  /** A watch link is a video whose card, while nothing plays, shows the CDN thumbnail of its identifier
      and passes that identifier on click. */
  lemma WatchLinkCard(key: int, name: string, id: string)
    requires |id| == IdLength && IsId(id)
    ensures CardOf(Row(key, name, Some(WatchLinkPrefix + id)), None)
      == Card(key, name, Some(Thumbnail(Some(ThumbnailPrefix + id + CdnSuffix), id)), false)
  {
    WatchLinkIsVideo(id);
  }

  /** Two rows with the same video both show the player: "one item playing at a time" holds per video
      identifier, not per row. */
  lemma SameVideoPlaysTwice(id: string)
    requires |id| == IdLength && IsId(id)
    ensures Render([Row(1, "a", Some(WatchLinkPrefix + id)), Row(2, "b", Some(WatchLinkPrefix + id))],
                   Some(id)).cards[0].player
    ensures Render([Row(1, "a", Some(WatchLinkPrefix + id)), Row(2, "b", Some(WatchLinkPrefix + id))],
                   Some(id)).cards[1].player
  {
    assert WatchLinkPrefix + id == WatchLinkPrefix + id + "";
    WatchLinkExtract(id, "");
  }

  /** The page component's state: the two `useState` cells, updated synchronously. */
  class ListPage {
    var rows: seq<Row>
    var playingVideoId: Option<string>

    /** Mounting: an empty list and no video playing. */
    constructor ()
      ensures rows == [] && playingVideoId == None
      ensures View().loading
    {
      rows := [];
      playingVideoId := None;
    }

    function View(): PageView
      reads this
    {
      Render(rows, playingVideoId)
    }

    /** The end of the request made on mount: a response replaces the list (`setRows`); a failure is only
        logged, so the list stays as it was. */
    method FetchCompleted(response: Result<seq<Row>, string>)
      modifies this`rows
      ensures rows == (if response.Success? then response.value else old(rows))
      ensures playingVideoId == old(playingVideoId)
    {
      if response.Success? {
        rows := response.value;
      }
    }

    /** `handleThumbnailClick`: the given identifier becomes the playing one. */
    method HandleThumbnailClick(videoId: string)
      modifies this`playingVideoId
      ensures playingVideoId == Some(videoId)
      ensures rows == old(rows)
    {
      playingVideoId := Some(videoId);
    }

    /** `handleVideoEnd`: nothing plays any more. */
    method HandleVideoEnd()
      modifies this`playingVideoId
      ensures playingVideoId == None
      ensures rows == old(rows)
    {
      playingVideoId := None;
    }

    /** The `onClick` of a video thumbnail, which exists only while that thumbnail is shown. */
    method ClickThumbnail(img: Option<string>)
      requires ShowsMedia(img, playingVideoId) && GetMediaType(img) == Video
      modifies this`playingVideoId
      ensures playingVideoId == Some(ClickTarget(img))
      ensures rows == old(rows)
    {
      HandleThumbnailClick(ClickTarget(img));
    }
  }
}
