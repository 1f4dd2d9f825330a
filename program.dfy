/**
 * `Main` of GetYouTubeStats: list every item of one playlist page by page, fetch the
 * details of each listed video one at a time, then write the report. The first
 * failure anywhere ends the run without a report.
 *
 * The two endpoints are passed in as functions from the request to the decoded
 * response; `None` is the null that `GetPlaylistPage` and `GetVideoDetails` return
 * for a status code outside the success range. A request stands for its URL: the
 * lemmas of `Urls` show that each URL identifies its request and no other.
 */
module Program {
  import opened Wrappers
  import opened Runtime
  import opened Numbers
  import opened Api
  import opened Urls
  import opened Csv
  import opened Listing
  import opened Details
  import opened Aborts

  /** The playlist every run lists. */
  const PLAYLIST_ID := "PLdo4fOcmZ0oULyHSPBx-tQzePOYlhvrAU"

  /** `GetPlaylistPage`: one request to the listing endpoint. */
  function GetPlaylistPage(listing: PageRequest -> Option<PlaylistPage>, key: string, playlistId: string,
                           pageToken: Option<string>): Option<PlaylistPage>
  {
    listing(PageRequestFor(key, playlistId, pageToken))
  }

  /**
   * The page `GetPlaylistPage` returns depends only on the URL it requests: two tokens
   * that give the same URL give the same page.
   */
  lemma GetPlaylistPageFollowsUrl(listing: PageRequest -> Option<PlaylistPage>, key: string, playlistId: string,
                                  t1: Option<string>, t2: Option<string>)
    requires PlaylistItemsUrl(key, playlistId, t1) == PlaylistItemsUrl(key, playlistId, t2)
    ensures GetPlaylistPage(listing, key, playlistId, t1) == GetPlaylistPage(listing, key, playlistId, t2)
  {
    PlaylistItemsUrlIdentifiesRequest(key, playlistId, t1, t2);
  }

  /**
   * `GetVideoDetails`: one request to the videos endpoint, then a record built from
   * the first element, whose three statistics are parsed in the order likes, views,
   * comments. An empty response or a statistic that does not parse raises.
   */
  function GetVideoDetails(videos: VideosRequest -> Option<VideoListResponse>, key: string, id: string): DetailCall
  {
    match videos(VideosRequest(id, key))
    case None => Null
    case Some(z) =>
      if |z.items| == 0 then Threw(IndexOutOfRange)
      else
        var v := z.items[0];
        match ParseInt32(v.likeCount)
        case Failure(e) => Threw(e)
        case Success(likes) =>
          match ParseInt32(v.viewCount)
          case Failure(e) => Threw(e)
          case Success(views) =>
            match ParseInt32(v.commentCount)
            case Failure(e) => Threw(e)
            case Success(comments) => Detail(VideoDetail(v.title, v.id, likes, views, comments, v.publishedAt))
  }

  /**
   * A call produces a detail exactly when the response has an element and all three
   * of its statistics parse; the detail then carries that element's title, id and
   * date and the parsed counts. A null response, and only that, makes the call null.
   */
  lemma GetVideoDetailsOutcome(videos: VideosRequest -> Option<VideoListResponse>, key: string, id: string)
    ensures var call := GetVideoDetails(videos, key, id);
            call.Null? <==> videos(VideosRequest(id, key)).None?
    ensures var call, z := GetVideoDetails(videos, key, id), videos(VideosRequest(id, key));
            call.Detail? <==>
              z.Some? && |z.value.items| > 0 &&
              ParseInt32(z.value.items[0].likeCount).Success? &&
              ParseInt32(z.value.items[0].viewCount).Success? &&
              ParseInt32(z.value.items[0].commentCount).Success?
    ensures var call := GetVideoDetails(videos, key, id);
            call.Detail? ==>
              var v := videos(VideosRequest(id, key)).value.items[0];
              call.detail.id == v.id && call.detail.title == v.title && call.detail.publishedDate == v.publishedAt &&
              ParseInt32(v.likeCount) == Success(call.detail.likes) &&
              ParseInt32(v.viewCount) == Success(call.detail.views) &&
              ParseInt32(v.commentCount) == Success(call.detail.comments)
  {
  }

  /**
   * A view count above the 32-bit range, such as "2147483648", makes `GetVideoDetails`
   * raise an overflow once the like count has parsed.
   */
  lemma ViewCountAboveInt32Raises(videos: VideosRequest -> Option<VideoListResponse>, key: string, id: string, s: string)
    requires videos(VideosRequest(id, key)).Some?
    requires |videos(VideosRequest(id, key)).value.items| > 0
    requires ParseInt32(videos(VideosRequest(id, key)).value.items[0].likeCount).Success?
    requires s != [] && AllDigits(s) && DigitsValue(s) > INT32_MAX
    requires videos(VideosRequest(id, key)).value.items[0].viewCount == Some(s)
    ensures GetVideoDetails(videos, key, id) == Threw(Overflow)
  {
    ParseInt32AboveMax(s);
  }

  /** The pages `GetPlaylistPage` returns for one key and playlist, by page token. */
  function PageSourceOf(listing: PageRequest -> Option<PlaylistPage>, key: string, playlistId: string): PageSource {
    t => GetPlaylistPage(listing, key, playlistId, t)
  }

  /** The ends of `GetVideoDetails` calls for one key, by video id. */
  function DetailSourceOf(videos: VideosRequest -> Option<VideoListResponse>, key: string): DetailSource {
    id => GetVideoDetails(videos, key, id)
  }

  // ---------------------------------------------------------------------------
  // The whole run

  /** What a run ends with: the report lines, or the reason it stopped without one. */
  ghost function RunResult(secret: Option<string>, listing: PageRequest -> Option<PlaylistPage>,
                           videos: VideosRequest -> Option<VideoListResponse>, showDate: DateTime -> string)
    : (r: Result<seq<string>, Abort>)
    requires IsNullOrEmpty(secret) || ListingEnds(PageSourceOf(listing, secret.value, PLAYLIST_ID))
    ensures r == Failure(MissingSecret) <==> IsNullOrEmpty(secret)
    ensures r == Failure(PlaylistUnavailable) <==>
              !IsNullOrEmpty(secret) && FinalWalk(PageSourceOf(listing, secret.value, PLAYLIST_ID)).ListingFailed?
    ensures r.Success? ==> r.value != [] && r.value[0] == HEADER
  {
    if IsNullOrEmpty(secret) then Failure(MissingSecret)
    else
      match FinalWalk(PageSourceOf(listing, secret.value, PLAYLIST_ID))
      case Listed(items) =>
        (match FetchAll(DetailSourceOf(videos, secret.value), items)
         case Failure(e) => Failure(e)
         case Success(videoDetails) => Success(Report(videoDetails, showDate)))
      case _ => Failure(PlaylistUnavailable)
  }

  /**
   * A run that ends with a report listed the playlist completely, got a detail for
   * every listed item, and wrote the header and then one row per item, in list order.
   */
  lemma ReportCoversEveryItem(secret: Option<string>, listing: PageRequest -> Option<PlaylistPage>,
                              videos: VideosRequest -> Option<VideoListResponse>, showDate: DateTime -> string)
    requires !IsNullOrEmpty(secret) && ListingEnds(PageSourceOf(listing, secret.value, PLAYLIST_ID))
    requires RunResult(secret, listing, videos, showDate).Success?
    ensures var w, lines := FinalWalk(PageSourceOf(listing, secret.value, PLAYLIST_ID)), RunResult(secret, listing, videos, showDate).value;
            w.Listed? && |lines| == |w.items| + 1 && lines[0] == HEADER &&
            forall i :: 0 <= i < |w.items| ==>
              var call := GetVideoDetails(videos, secret.value, w.items[i].videoId);
              call.Detail? && lines[i + 1] == Row(call.detail, showDate)
  {
    var items := FinalWalk(PageSourceOf(listing, secret.value, PLAYLIST_ID)).items;
    var call := DetailSourceOf(videos, secret.value);
    var details := FetchAll(call, items).value;
    forall i | 0 <= i < |items|
      ensures GetVideoDetails(videos, secret.value, items[i].videoId) == Detail(details[i])
    {
      assert call(items[i].videoId) == Detail(details[i]);
    }
  }

  /**
   * No partial report: once the playlist is listed, a single item whose detail call
   * does not produce a detail ends the run without a report.
   */
  lemma NoPartialReport(secret: Option<string>, listing: PageRequest -> Option<PlaylistPage>,
                        videos: VideosRequest -> Option<VideoListResponse>, showDate: DateTime -> string, k: nat)
    requires !IsNullOrEmpty(secret) && ListingEnds(PageSourceOf(listing, secret.value, PLAYLIST_ID))
    requires FinalWalk(PageSourceOf(listing, secret.value, PLAYLIST_ID)).Listed?
    requires k < |FinalWalk(PageSourceOf(listing, secret.value, PLAYLIST_ID)).items|
    requires !GetVideoDetails(videos, secret.value, FinalWalk(PageSourceOf(listing, secret.value, PLAYLIST_ID)).items[k].videoId).Detail?
    ensures RunResult(secret, listing, videos, showDate).Failure?
  {
    var items := FinalWalk(PageSourceOf(listing, secret.value, PLAYLIST_ID)).items;
    var call := DetailSourceOf(videos, secret.value);
    FetchAllSucceeds(call, items);
    assert !call(items[k].videoId).Detail?;
  }

  /**
   * `Main`, with the user secret, both endpoints and the date formatting passed in;
   * the report is returned instead of written to the console.
   */
  method Run(secret: Option<string>, listing: PageRequest -> Option<PlaylistPage>,
             videos: VideosRequest -> Option<VideoListResponse>, showDate: DateTime -> string)
    returns (outcome: Result<seq<string>, Abort>)
    requires IsNullOrEmpty(secret) || ListingEnds(PageSourceOf(listing, secret.value, PLAYLIST_ID))
    ensures outcome == RunResult(secret, listing, videos, showDate)
  {
    if IsNullOrEmpty(secret) {
      return Failure(MissingSecret);
    }
    var key := secret.value;
    var playlist, pageTokens := CollectPlaylist(PageSourceOf(listing, key, PLAYLIST_ID));
    FinalWalkIs(PageSourceOf(listing, key, PLAYLIST_ID), |pageTokens|);
    if playlist.None? {
      return Failure(PlaylistUnavailable);
    }
    var details, requested := CollectDetails(DetailSourceOf(videos, key), playlist.value);
    if details.Failure? {
      return Failure(details.error);
    }
    var lines := WriteReport(details.value, showDate);
    outcome := Success(lines);
  }
}
