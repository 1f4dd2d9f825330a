/**
 * The parts of the platform's responses that the program reads, and the record it
 * builds for each video. JSON deserialisation itself is not modelled: the endpoints
 * hand these values over already decoded.
 */
module Api {
  import opened Wrappers
  import opened Numbers

  /** One playlist entry: the item's own id and its `contentDetails.videoId`. */
  datatype PlaylistItem = PlaylistItem(id: string, videoId: string)

  /** One page of the playlist-items listing. */
  datatype PlaylistPage = PlaylistPage(items: seq<PlaylistItem>, nextPageToken: Option<string>)

  /**
   * A .NET `DateTime`, kept as its tick count; its calendar and its text form belong
   * to the runtime library and are passed in as a function where the report needs them.
   */
  datatype DateTime = DateTime(ticks: int)

  /** One element of the videos response: snippet title and date, and the statistics as text. */
  datatype VideoResource = VideoResource(
    id: string,
    title: string,
    publishedAt: DateTime,
    likeCount: Option<string>,
    viewCount: Option<string>,
    commentCount: Option<string>)

  /** The videos response: the program reads only its first element. */
  datatype VideoListResponse = VideoListResponse(items: seq<VideoResource>)

  /** The program's `VideoDetail` record: the counters are 32-bit `int`s. */
  datatype VideoDetail = VideoDetail(
    title: string,
    id: string,
    likes: Int32,
    views: Int32,
    comments: Int32,
    publishedDate: DateTime)
}
