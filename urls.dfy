/**
 * The two request URLs, built by string interpolation without any escaping, and the
 * request parameters each of them carries.
 */
module Urls {
  import opened Wrappers
  import opened Runtime

  const PLAYLIST_ITEMS_ENDPOINT := "https://youtube.googleapis.com/youtube/v3/playlistItems?part=contentDetails&maxResults=50&playlistId="
  const VIDEOS_ENDPOINT := "https://youtube.googleapis.com/youtube/v3/videos?part=snippet%2Cstatistics&id="
  const KEY_PARAM := "&key="
  const PAGE_TOKEN_PARAM := "&pageToken="

  /**
   * What one playlist-items request asks for. `pageToken` is the text of the
   * `pageToken` parameter, or "" when the URL has none.
   */
  datatype PageRequest = PageRequest(key: string, playlistId: string, pageToken: string)

  /** What one videos request asks for: the details of one video id. */
  datatype VideosRequest = VideosRequest(id: string, key: string)

  /** The playlist-items URL before any page token: page size 50, the playlist and the key. */
  function PlaylistItemsBase(key: string, playlistId: string): string {
    PLAYLIST_ITEMS_ENDPOINT + playlistId + KEY_PARAM + key
  }

  /** The URL `GetPlaylistPage` requests. */
  function PlaylistItemsUrl(key: string, playlistId: string, pageToken: Option<string>): (url: string)
    ensures PlaylistItemsBase(key, playlistId) <= url
    ensures IsNullOrEmpty(pageToken) <==> |url| == |PlaylistItemsBase(key, playlistId)|
    ensures !IsNullOrEmpty(pageToken) ==> url[|PlaylistItemsBase(key, playlistId)|..] == PAGE_TOKEN_PARAM + pageToken.value
  {
    var base := PlaylistItemsBase(key, playlistId);
    if IsNullOrEmpty(pageToken) then base
    else
      var url := base + PAGE_TOKEN_PARAM + pageToken.value;
      assert url[|base|..] == PAGE_TOKEN_PARAM + pageToken.value;
      url
  }

  /** The request that `GetPlaylistPage` makes with a token: a null and an empty token both ask for the first page. */
  function PageRequestFor(key: string, playlistId: string, pageToken: Option<string>): (r: PageRequest)
    ensures r.key == key && r.playlistId == playlistId
    ensures r.pageToken == "" <==> IsNullOrEmpty(pageToken)
    ensures !IsNullOrEmpty(pageToken) ==> r.pageToken == pageToken.value
  {
    PageRequest(key, playlistId, if IsNullOrEmpty(pageToken) then "" else pageToken.value)
  }

  /** The URL `GetVideoDetails` requests for one video id. */
  function VideoDetailsUrl(id: string, key: string): (url: string)
    ensures VIDEOS_ENDPOINT + id + KEY_PARAM <= url
    ensures |url| == |VIDEOS_ENDPOINT| + |id| + |KEY_PARAM| + |key|
    ensures url[|VIDEOS_ENDPOINT| + |id| + |KEY_PARAM|..] == key
  {
    var prefix := VIDEOS_ENDPOINT + id + KEY_PARAM;
    assert (prefix + key)[|prefix|..] == key;
    prefix + key
  }

  /**
   * For one key and playlist, two page URLs are the same exactly when they ask for
   * the same page: the URL carries the request and nothing else.
   */
  lemma PlaylistItemsUrlIdentifiesRequest(key: string, playlistId: string, t1: Option<string>, t2: Option<string>)
    ensures PlaylistItemsUrl(key, playlistId, t1) == PlaylistItemsUrl(key, playlistId, t2) <==>
              PageRequestFor(key, playlistId, t1) == PageRequestFor(key, playlistId, t2)
  {
    var n := |PlaylistItemsBase(key, playlistId)|;
    var u1, u2 := PlaylistItemsUrl(key, playlistId, t1), PlaylistItemsUrl(key, playlistId, t2);
    if u1 == u2 && !IsNullOrEmpty(t1) && !IsNullOrEmpty(t2) {
      var p := |PAGE_TOKEN_PARAM|;
      assert t1.value == (PAGE_TOKEN_PARAM + t1.value)[p..] == u1[n..][p..];
      assert t2.value == (PAGE_TOKEN_PARAM + t2.value)[p..] == u2[n..][p..];
    }
  }

  /** With one key, two detail URLs are the same exactly when they are for the same video id. */
  lemma VideoDetailsUrlIdentifiesId(id1: string, id2: string, key: string)
    ensures VideoDetailsUrl(id1, key) == VideoDetailsUrl(id2, key) <==> id1 == id2
  {
    var u := VideoDetailsUrl(id1, key);
    if u == VideoDetailsUrl(id2, key) {
      var n := |VIDEOS_ENDPOINT|;
      assert |id1| == |id2|;
      assert id1 == u[n..n + |id1|];
      assert id2 == VideoDetailsUrl(id2, key)[n..n + |id2|];
    }
  }
}
