/**
 * The records the streaming API returns, as typed values: only the fields
 * the snapshot code reads are kept.
 */
module SpotifyDatatypes {
  import opened Wrappers

  datatype Artist = Artist(name: string)

  /** The album of a track, or a saved album (whose `artists` are written out). */
  datatype Album = Album(name: string, id: string, artists: seq<Artist>)

  datatype Track = Track(album: Album, artists: seq<Artist>, name: string, id: string)

  datatype AddedBy = AddedBy(id: string)

  /**
   * One item of a saved-tracks or playlist-tracks page. `track` is None for
   * the tombstoned tracks the API sometimes returns.
   */
  datatype TrackItem = TrackItem(track: Option<Track>, addedBy: AddedBy, addedAt: string)

  /** The dict key a track item is stored under (`item["track"]["id"]`); only read when the track is present. */
  function TrackId(item: TrackItem): string
  {
    if item.track.Some? then item.track.value.id else ""
  }

  predicate HasTrack(item: TrackItem)
  {
    item.track.Some?
  }

  /** One item of a saved-albums page. */
  datatype SavedAlbumItem = SavedAlbumItem(album: Album, addedAt: string)

  datatype User = User(displayName: string, id: string)

  datatype TracksRef = TracksRef(href: string, total: int)

  datatype Playlist = Playlist(
    collaborative: bool,
    description: string,
    id: string,
    name: string,
    owner: User,
    tracks: TracksRef)

  /** A playlist found in the previous index but not in the new one. */
  datatype DeletedPlaylist = DeletedPlaylist(name: string, id: string)

  /** A page of results: `next` is the cursor of the following page, if any. */
  datatype Page<T> = Page(items: seq<T>, next: Option<string>, total: int)

  /** Python truthiness of `results["next"]`: neither None nor the empty string. */
  predicate HasNext<T>(page: Page<T>)
  {
    page.next.Some? && page.next.value != ""
  }
}
