/**
 * spotify_version_snapshots/constants.py: the names of the three snapshot
 * files inside the snapshots repository. In the source they are `Path`
 * objects; `LegacyGitutils` models what that means for comparisons with the
 * string paths git reports.
 */
module LegacyConstants {
  /** The keys of `FILENAMES`. */
  datatype SnapshotKind = Tracks | Albums | Playlists

  const TRACKS_FILENAME: string := "saved_tracks.tsv"
  const ALBUMS_FILENAME: string := "saved_albums.tsv"
  const PLAYLISTS_FILENAME: string := "playlists.tsv"

  /** `FILENAMES[kind]`, as the text of the `Path`. */
  function FileName(kind: SnapshotKind): string
  {
    match kind
    case Tracks => TRACKS_FILENAME
    case Albums => ALBUMS_FILENAME
    case Playlists => PLAYLISTS_FILENAME
  }

  /** `FILENAMES.values()`, in dict order. */
  const FILENAME_VALUES: seq<string> := [TRACKS_FILENAME, ALBUMS_FILENAME, PLAYLISTS_FILENAME]
}
