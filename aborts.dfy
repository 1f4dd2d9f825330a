/** The ways a run of `Main` ends without writing a report. */
module Aborts {
  import opened Runtime

  /** Why a run ends without a report. */
  datatype Abort =
    | MissingSecret                             // no user secret: returns 1 before any request
    | PlaylistUnavailable                       // a playlist page came back null: returns 1
    | VideoUnavailable(playlistItemId: string)  // a video detail came back null: returns 1
    | Unhandled(ex: Exception)                  // an exception escapes Main
}
