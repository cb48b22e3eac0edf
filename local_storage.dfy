/**
 * The LocalStorage collaborator as MainViewModel sees it: a synchronous
 * lookup of a video cached on disk under (playlist name, video name), and a
 * save that is recorded in a ghost log. How the disk is laid out, and
 * under which key a saved video is later found, belong to LocalStorage
 * itself and are not part of this model.
 */
module LocalStorage {
  import opened Wrappers
  import opened Models

  class Store {
    /** The videos on disk, keyed by (playlist name, video name). */
    var disk: map<(string, string), Video>
    /** Every video handed to SaveVideo, in call order. */
    ghost var saved: seq<Video>

    constructor (disk: map<(string, string), Video>)
      ensures this.disk == disk && saved == []
    {
      this.disk := disk;
      saved := [];
    }

    /** The cached video, or null (`None`) on a miss; never fails for a missing key. */
    method GetVideo(playlistName: string, name: string) returns (vid: Option<Video>)
      ensures vid.Some? <==> (playlistName, name) in disk
      ensures vid.Some? ==> vid.value == disk[(playlistName, name)]
    {
      var key := (playlistName, name);
      if key in disk {
        vid := Some(disk[key]);
      } else {
        vid := None;
      }
    }

    /** Best-effort persistence of `v`: the call is recorded and the lookup map is left as it was. */
    method SaveVideo(v: Video)
      modifies this`saved
      ensures saved == old(saved) + [v]
    {
      saved := saved + [v];
    }
  }
}
