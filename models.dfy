/**
 * The value types of KhanViewer.Models that the view model touches. Only the
 * names take part in the lookups; everything else a video carries is kept as
 * an uninterpreted `details` string.
 */
module Models {
  /** A VideoItem: identified by its name within its playlist. */
  datatype Video = Video(name: string, details: string)

  /** A PlaylistItem: a name and its ordered videos. */
  datatype Playlist = Playlist(name: string, videos: seq<Video>)

  /** A GroupItem, shown on the main page beside the playlists. */
  datatype Group = Group(name: string)
}
