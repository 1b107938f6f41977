# spotify-version-snapshots, modelled in Dafny

spotify-version-snapshots backs a Spotify library up into a git repository
as tab-separated snapshot files, then commits them with a message that
summarises what changed. This project models the snapshot pipeline:

- fetching liked songs, saved albums, playlists and playlist tracks page by
  page, following the API's `next` cursors. The current package retries
  timed-out follow-ups; the older package has a `test_mode` early exit; the
  first prototype (`main.py`) pages by offset;
- writing each snapshot file: a header row, then one row per record, in
  stable ascending sort-key order;
- naming a playlist's track file `"{name with / escaped} ({id}).tsv"`;
- the output-path singleton `SpotifySnapshotOutputManager`, and the
  directories it creates;
- reconciling deletions: diffing the committed playlist index against the
  new one, line by line, and removing the deleted playlists' track files;
- `commit_files` and the commit message that replaces the temporary commit's.
  Both the current package and the older one are modelled.

The Spotify API is a parameter. It is the sequence of outcomes of the
successive `next` calls, each a page or a read timeout. The prototype's
endpoint is a function from `(limit, offset)` to the page. The file system is
a `FileSystem` object holding directories and files, where a file is the list
of its lines. The git engine reports stats, diffs and rename detection; the
model takes those as inputs. The repository itself is a `Repo` object holding
the commit messages and the HEAD tree. The timestamp is a string parameter.

Module by module:

| module | models |
|---|---|
| `Wrappers`, `Text`, `PyDict`, `Sorting` | the Python semantics the code relies on: exceptions, `str` operations, insertion-ordered `dict`, stable `sorted` |
| `SpotifyDatatypes` | the API records the code reads |
| `FileTree`, `GitRepos` | the working tree, the repository and `get_repo_name` |
| `OutputFiles`, `OutputManager` | spotify_snapshot/outputfileutils.py and spotify_snapshot_output_manager.py |
| `Pagination`, `Snapshot` | the fetch loops and the write wrappers of spotify_snapshot/spotify.py |
| `Reconcile`, `CommitMessage`, `GitCommit` | spotify_snapshot/gitutils.py |
| `LegacyConstants`, `LegacyOutputFiles`, `LegacySpotify`, `LegacyGitutils` | the older spotify_version_snapshots package |
| `OffsetPaging` | `get_saved_tracks` of main.py |

utils/outputfileutils.py holds the same `write_to_file`, `track_to_row` and
`album_to_row` as spotify_snapshot/outputfileutils.py. Its `write_to_file`
appends the rows in a loop (`OutputFiles.AppendRows`, which yields the same
rows as the list comprehension of `OutputFiles.WriteToFile`). Those members
model both files.

Where the code and its comments or docstrings disagree, the model follows
the code. For example, `write_to_file`'s docstring says it creates
directories, but the current version does not. The as-written behaviour is
kept wherever it is evidently unintended, and a corrected member stands
beside it (see "## Findings").

## Model

| member | source | states |
|---|---|---|
| `Text.Split` | spotify_snapshot/gitutils.py:99-101 | `line.split("\t")` always gives at least one piece, and no piece holds a tab |
| `Text.JoinSplit` | spotify_snapshot/gitutils.py:99-101 | joining the pieces of a split with the separator gives the line back |
| `Text.SplitJoin` | spotify_snapshot/gitutils.py:99-101 | splitting a tab-join of tab-free fields gives the fields back |
| `Text.JoinedRowFields` | spotify_snapshot/gitutils.py:99-101 | the first and last tab fields of a written row are its first and last cells |
| `Text.ReplaceRemovesChar` | spotify_snapshot/spotify.py:329 | after `replace("/", r)` with a replacement free of `/`, no `/` is left |
| `Text.ReplaceCharRoundTrip` | spotify_snapshot/spotify.py:329 | replacing one character by another is undone by the reverse replacement when the second did not occur |
| `Text.RStrip` | spotify_snapshot/gitutils.py:211 | `rstrip(chars)` returns a prefix that does not end in a character of the set, and every character it removed is in the set |
| `Text.BeforeFirst` | spotify_snapshot/gitutils.py:208-209 | `s.split(" (")[0]` is the prefix before the first `" ("`: no earlier occurrence, and either all of `s` or followed by `" ("` |
| `Text.NatToString` | spotify_snapshot/gitutils.py:196 | `str(n)` is a non-empty numeral that starts with `0` only for zero |
| `Text.IntToString` | spotify_snapshot/gitutils.py:188 | `str(i)` starts with a minus sign exactly when `i` is negative |
| `Text.ParseNatToString` | spotify_snapshot/gitutils.py:196 | reading `str(n)` back as a numeral gives `n` |
| `PyDict.InsertAllKeys` | spotify_snapshot/spotify.py:159 | after `d[key(item)] = item` for each item, the keys are the earlier keys plus the items' keys, nothing else |
| `PyDict.InsertAllLastWins` | spotify_snapshot/spotify.py:159 | a key holds the last item stored under it |
| `PyDict.InsertAllKeyedBy` | spotify_snapshot/spotify.py:159 | every value stays stored under its own key |
| `PyDict.InsertAllSize` | main.py:26-27 | the dict grows by at most one entry per item |
| `PyDict.InsertAllValues` | spotify_snapshot/spotify.py:159 | every value afterwards is one of the items, or the value that was there before |
| `Sorting.StableSort` | spotify_snapshot/outputfileutils.py:51 | `sorted` returns a permutation of its input |
| `Sorting.StableSortSorted` | spotify_snapshot/outputfileutils.py:51 | `sorted` returns its input in ascending key order (strings and tuples compared as Python compares them) |
| `Sorting.StableSortStable` | spotify_snapshot/outputfileutils.py:51 | `sorted` is stable: for each key, the values with that key keep their input order |
| `OutputFiles.InsertBeforeLast` | spotify_snapshot/outputfileutils.py:26-30 | `[*row[:-1], field, *row[-1:]]` is the row with `field` inserted just before its last column, the rest unchanged |
| `OutputFiles.AddedByLabel` | spotify_snapshot/outputfileutils.py:73-77 | an empty adder id shows as `<unknown>`; any other id shows as itself |
| `OutputFiles.TrackToRow` | spotify_snapshot/outputfileutils.py:60-68 | one value per track column, each under its heading: name, artists joined by `", "`, album, date added, id |
| `OutputFiles.PlaylistTrackToRow` | spotify_snapshot/outputfileutils.py:71-78 | one value per column of the playlist-track header, ADDED BY before the id; the other columns are the track row's |
| `OutputFiles.AlbumToRow` | spotify_snapshot/outputfileutils.py:81-88 | one value per album column, each under its heading, ending with the album id |
| `OutputFiles.PlaylistToRow` | spotify_snapshot/outputfileutils.py:91-99 | one value per index column, each under its heading; the name is first and the id last |
| `OutputFiles.SingletonKeyOrder` | spotify_snapshot/spotify.py:381 | sorting the index by the one-element key orders it exactly as by the id string |
| `OutputFiles.Rows` | spotify_snapshot/outputfileutils.py:53 | one row per item, in order, each the row function of its item |
| `OutputFiles.SnapshotRows` | spotify_snapshot/outputfileutils.py:51-53 | `len(data) + 1` rows, the header first |
| `OutputFiles.TsvLines` | spotify_snapshot/outputfileutils.py:55-57 | one line per row, its fields joined by tabs |
| `OutputFiles.SnapshotRowsOrder` | spotify_snapshot/outputfileutils.py:51-53 | the data rows are the rows of an ordering of the dict's values that is ascending, a permutation, and stable for every key |
| `OutputFiles.SnapshotRowsWidth` | spotify_snapshot/outputfileutils.py:16-30 | when every record's row is as wide as the header, so is every row of the file |
| `OutputFiles.WriteToFile` | spotify_snapshot/outputfileutils.py:34-57 | succeeds exactly when the file can be opened for writing; then the file holds the header and sorted rows, and nothing else changes; on failure nothing changes |
| `OutputFiles.AppendRows` | utils/outputfileutils.py:16-18 | the append loop yields the header followed by one row per sorted value, in order |
| `OutputManager.SnapshotOutputManager.constructor` | spotify_snapshot/spotify_snapshot_output_manager.py:15 | the manager keeps its base directory |
| `OutputManager.SnapshotOutputManager.LikedSongsPath` | spotify_snapshot/spotify_snapshot_output_manager.py:34-52 | `base_dir / "liked_songs.tsv"` |
| `OutputManager.SnapshotOutputManager.AlbumsPath` | spotify_snapshot/spotify_snapshot_output_manager.py:39-57 | `base_dir / "saved_albums.tsv"` |
| `OutputManager.SnapshotOutputManager.PlaylistsIndexPath` | spotify_snapshot/spotify_snapshot_output_manager.py:44-62 | `base_dir / "playlists.tsv"` |
| `OutputManager.SnapshotOutputManager.PlaylistsDirPath` | spotify_snapshot/spotify_snapshot_output_manager.py:64-66 | `base_dir / "playlists"` |
| `OutputManager.SnapshotOutputManager.EnsureOutputDirs` | spotify_snapshot/spotify_snapshot_output_manager.py:68-81 | fails exactly when a prefix of `base_dir` is a file, with NotADirectoryError naming `base_dir` when the file is a proper prefix of it, or naming `playlists` when `base_dir` exists; otherwise both directories exist afterwards, only missing ones are made, and files are untouched |
| `OutputManager.ManagerRegistry.constructor` | spotify_snapshot/spotify_snapshot_output_manager.py:8 | no instance is registered at first |
| `OutputManager.ManagerRegistry.Construct` | spotify_snapshot/spotify_snapshot_output_manager.py:10-16 | RuntimeError while an instance exists; otherwise a fresh manager on `base_dir` whose directories now exist, or the error of making them |
| `OutputManager.ManagerRegistry.Initialize` | spotify_snapshot/spotify_snapshot_output_manager.py:18-24 | with an instance, returns it unchanged and ignores `base_dir`; without one, registers and returns a fresh manager on `base_dir` |
| `OutputManager.ManagerRegistry.GetInstance` | spotify_snapshot/spotify_snapshot_output_manager.py:26-32 | returns the instance exactly when one is registered, else the "not initialized" RuntimeError |
| `OutputManager.InitializeTwice` | spotify_snapshot/spotify_snapshot_output_manager.py:10-24 | once `initialize` has registered a manager, a second `initialize` returns that same manager on the first base directory, and the constructor raises RuntimeError |
| `OutputManager.OutputPathsDistinct` | spotify_snapshot/spotify_snapshot_output_manager.py:34-66 | the three file paths differ pairwise, and no playlist track file is one of them |
| `FileTree.ReadIn` | spotify_snapshot/gitutils.py:84-85 | reading gives the file's lines when it is a file; otherwise IsADirectoryError on a directory, NotADirectoryError when a proper prefix is a file, FileNotFoundError else |
| `FileTree.FileSystem.MakeDirs` | spotify_snapshot/spotify_snapshot_output_manager.py:75 | `mkdir(parents=True, exist_ok=True)` succeeds exactly when no prefix is a file, and then adds every prefix as a directory; otherwise FileExistsError when the path itself is a file, NotADirectoryError when a proper prefix is, and nothing changes |
| `FileTree.FileSystem.BlockedByItselfOrPrefix` | spotify_snapshot/spotify_snapshot_output_manager.py:75 | a blocked path is either itself a file or has a file as a proper prefix, never both |
| `FileTree.FileSystem.WriteLines` | spotify_snapshot/outputfileutils.py:55-57 | `open(p, "w")` succeeds exactly when `p` is not a directory and its parent is; then `p` holds the lines. Otherwise IsADirectoryError, NotADirectoryError when a proper prefix is a file, or FileNotFoundError, and nothing changes |
| `FileTree.FileSystem.Remove` | spotify_snapshot/gitutils.py:127 | `os.remove(p)` succeeds exactly when `p` is a file, and removes only it |
| `GitRepos.GetRepoName` | spotify_snapshot/gitutils.py:13-17 | `/tmp/SPOTIFY-VERSION-SNAPSHOTS-TEST-REPO` in test mode, `spotify-snapshots-repo` otherwise: the first absolute, the second relative |
| `GitRepos.RepoNamesApart` | spotify_snapshot/gitutils.py:13-17 | neither repository path lies inside the other |
| `GitRepos.WorkTree` | spotify_snapshot/gitutils.py:49-53 | what `is_dirty` compares and `add(A=True)` stages: exactly the files below the repository root |
| `GitRepos.Repo.constructor` | spotify_snapshot/gitutils.py:31 | a new repository has no commits and an empty HEAD tree |
| `GitRepos.Repo.CommitAll` | spotify_snapshot/gitutils.py:53-56 | adds one commit with the message; HEAD records the working tree, which is then clean |
| `GitRepos.Repo.Amend` | spotify_snapshot/gitutils.py:61 | replaces the HEAD commit's message and keeps its files |
| `Pagination.FilterKeeps` | spotify_snapshot/spotify.py:154-158 | an item is set aside exactly when it is among the items and has no track |
| `Pagination.FilterSplit` | spotify_snapshot/spotify.py:154-159 | each item goes to exactly one side: set aside or stored |
| `Pagination.RetryNext` | spotify_snapshot/spotify.py:165-183 | the follow-up gives up exactly when all `max_retries` attempts time out; otherwise it gives the first fetched page, after only timeouts |
| `Pagination.RetryWalk` | spotify_snapshot/spotify.py:144-185 | the processed pages start with the initial page |
| `Pagination.RetryWalkCursors` | spotify_snapshot/spotify.py:161-185 | every processed page but the last had a `next`; the walk is complete exactly when the last page has none |
| `Pagination.RetryWalkGivesUp` | spotify_snapshot/spotify.py:165-177 | the loop stops after the first page without finishing exactly when `max_retries` timeouts come in a row |
| `Pagination.RetryWalkStep` | spotify_snapshot/spotify.py:161-168 | a page with a `next` is followed by the walk from the page the retries fetched; a page without one ends the walk |
| `Pagination.StorePageItems` | spotify_snapshot/spotify.py:154-159 | one page's pass extends the dict and the skipped list exactly as the items demand |
| `Pagination.NextWithRetries` | spotify_snapshot/spotify.py:165-183 | the `for attempt` loop returns what `RetryNext` specifies |
| `Pagination.FetchPaginatedTracks` | spotify_snapshot/spotify.py:124-191 | the dict, the skipped items and the count are those of all items of the processed pages, partial results included |
| `Pagination.FetchedTracksStored` | spotify_snapshot/spotify.py:154-159 | no stored item lacks a track, and each is stored under its own track id |
| `Pagination.FetchedTracksKeys` | spotify_snapshot/spotify.py:154-159 | the stored ids are exactly the ids of the items that have a track |
| `Pagination.FetchedTracksLastWins` | spotify_snapshot/spotify.py:159 | a later item with the same track id overwrites an earlier one |
| `Pagination.FetchedTracksCount` | spotify_snapshot/spotify.py:149-159 | stored plus skipped never exceeds `total_tracks_fetched` |
| `Pagination.PlainWalk` | spotify_snapshot/spotify.py:223-234 | the processed pages start with the initial page |
| `Pagination.PlainWalkCursors` | spotify_snapshot/spotify.py:250-261 | every processed page but the last had a `next`; outside test mode a finished walk ends on a page without one, and a timed-out one on a page with one |
| `Pagination.TestModeFirstPageOnly` | spotify_version_snapshots/spotify.py:115-122 | in test mode only the first page is processed |
| `Pagination.CollectedFails` | spotify_version_snapshots/spotify.py:71-85 | a loop fails exactly when a `next` timed out or, when items are not checked, an item has no track |
| `Pagination.CollectedKeys` | spotify_snapshot/spotify.py:227-228 | the keys are exactly those of the kept items |
| `Pagination.CollectedKeyedBy` | spotify_version_snapshots/spotify.py:137-138 | the result is a well-formed dict with each value under its own key |
| `Pagination.SavePageItems` | spotify_version_snapshots/spotify.py:109-113 | one page's pass stores each kept item, or reports the first item without a track when that raises |
| `Pagination.NextPage` | spotify_version_snapshots/spotify.py:115-122 | after a page: stops with what the whole walk collects when there is no `next`, the fetch times out or test mode is on; otherwise the walk goes on from the fetched page |
| `Pagination.FollowOnce` | spotify_version_snapshots/spotify.py:103-122 | one pass of the loop: raises on an item without a track when that is checked, stops with what the walk collects, or goes on from the next page |
| `Pagination.FollowPages` | spotify_version_snapshots/spotify.py:102-122 | the plain `while True` loop returns what its walk collects |
| `Pagination.GetSavedAlbums` | spotify_snapshot/spotify.py:218-236 | the albums of the walk under their ids; fails exactly when a `next` timed out |
| `Pagination.GetPlaylists` | spotify_snapshot/spotify.py:239-263 | the playlists of the walk under their ids; fails exactly when a `next` timed out |
| `OffsetPaging.OffsetSavedTracksOutcome` | main.py:26-27 | fails exactly when an item has no track; otherwise every item's id is a key and there are at most as many entries as items |
| `OffsetPaging.RequestLog` | main.py:15-31 | one request per pass |
| `OffsetPaging.RequestLogAt` | main.py:15-31 | request `k` asks for 50 items at offset `50 * k` |
| `OffsetPaging.RequestLogStep` | main.py:31 | each pass adds one request, 50 further on |
| `OffsetPaging.SavePage` | main.py:19-27 | one pass requests `(limit, offset)` and stores its items, or reports the item without a track |
| `OffsetPaging.GetSavedTracks` | main.py:12-36 | requests at offsets 0, 50, ...; every page but the last is full; the last is short or raised; one sleep between requests; the result is the dict of all received items |
| `Snapshot.EscapedName` | spotify_snapshot/spotify.py:329 | the escaped name holds no `/` |
| `Snapshot.EscapedNameRoundTrip` | spotify_snapshot/spotify.py:329 | a name without U+2215 is recovered from its escaped form |
| `Snapshot.PlaylistBaseName` | spotify_snapshot/spotify.py:331-333 | the base name starts with the escaped name and holds a `/` only when the id does |
| `Snapshot.BaseNamesDistinguishIds` | spotify_snapshot/spotify.py:331-333 | two playlists with different ids never share a track file |
| `Snapshot.PlaylistFileName` | spotify_snapshot/spotify.py:326-333 | the path is `playlists_dir_path` plus the base name |
| `Snapshot.FileNameOfDeletedEntry` | spotify_snapshot/spotify.py:326-327 | a playlist dict and a `DeletedPlaylist` with its name and id give the same path |
| `Snapshot.GetPlaylistFileName` | spotify_snapshot/spotify.py:315-333 | RuntimeError before `initialize`, otherwise the playlist's path |
| `Snapshot.FetchedFromRowable` | spotify_snapshot/spotify.py:341-347 | every fetched value has a track, so both track row functions accept it |
| `Snapshot.GetTracks` | spotify_snapshot/spotify.py:194-215 | the first request (`current_user_saved_tracks` or `playlist_tracks`) raises ReadTimeout exactly when it times out; otherwise the result is `_fetch_paginated_tracks` with the default retries |
| `Snapshot.SavedAlbumsCollected` | spotify_snapshot/spotify.py:218-236 | a walk that did not time out collects these albums, each under its own id |
| `Snapshot.ListedPlaylistsCollected` | spotify_snapshot/spotify.py:239-263 | a walk that did not time out collects these playlists, each under its own id |
| `Snapshot.WriteLikedSongsToGitRepo` | spotify_snapshot/spotify.py:336-350 | a timeout of the first request changes nothing and raises ReadTimeout; then RuntimeError before `initialize`; otherwise `liked_songs.tsv` is written sorted by `(added_at, name)` exactly when it can be opened |
| `Snapshot.WriteSavedAlbumsToGitRepo` | spotify_snapshot/spotify.py:353-367 | a timeout (first request or `next`) or RuntimeError changes nothing; otherwise `saved_albums.tsv` is written sorted by `(added_at, album name)` exactly when it can be opened |
| `Snapshot.SkippedPlusBackedUp` | spotify_snapshot/spotify.py:392-408 | skipped plus backed up equals the number of playlists |
| `Snapshot.SkippedNamesExactly` | spotify_snapshot/spotify.py:395-397 | exactly the playlists without tracks are recorded as skipped |
| `Snapshot.TrackFileWritten` | spotify_snapshot/spotify.py:398-407 | a playlist with tracks ends up with its rows in its file, unless a later one reuses that file |
| `Snapshot.OtherFilesKept` | spotify_snapshot/spotify.py:394-397 | a file no playlist with tracks maps to is untouched; empty playlists get no file |
| `Snapshot.BackUpPlaylist` | spotify_snapshot/spotify.py:393-408 | one pass succeeds exactly when the playlist's first request was answered and, if it has tracks, its file can be opened; a timeout gives ReadTimeout; the file is written only on success with tracks |
| `Snapshot.WritePlaylistTrackFiles` | spotify_snapshot/spotify.py:388-408 | the loop succeeds exactly when every pass does (first request answered, non-empty playlist's file openable), having written all files and counted skipped and backed-up; on failure it stopped at the first failing pass with the earlier passes' files, ReadTimeout for a timeout |
| `Snapshot.WritePlaylistFiles` | spotify_snapshot/spotify.py:378-408 | the index sorted by id, then the track files; success exactly when the index can be opened and every pass succeeds; a failure after the index leaves the index and the files of the passes before the first failing one |
| `Snapshot.WritePlaylistsToGitRepo` | spotify_snapshot/spotify.py:370-420 | the whole wrapper: a timeout of the listing (first request or `next`) and RuntimeError change nothing; otherwise the index and the track files, as `WritePlaylistFiles` states, including where a timed-out playlist fetch stops the loop |
| `Reconcile.DeletedLinesMembers` | spotify_snapshot/gitutils.py:90 | a line is reported exactly when it is in the old index and not in the new one |
| `Reconcile.DeletedLinesAppend` | spotify_snapshot/gitutils.py:90 | the reported lines keep the old file's order |
| `Reconcile.DeletedEntriesFromLines` | spotify_snapshot/gitutils.py:95-104 | every entry comes from a non-blank line, and every non-blank line gives its entry |
| `Reconcile.ParseDeletedLines` | spotify_snapshot/gitutils.py:94-105 | the loop builds one `DeletedPlaylist(first field, last field)` per non-blank line, in order |
| `Reconcile.IndexDiffLinesUntouched` | spotify_snapshot/gitutils.py:74-91 | without a diff item for the index, nothing is reported |
| `Reconcile.GetDeletedPlaylists` | spotify_snapshot/gitutils.py:65-105 | returns the entries of the index lines that are gone, or the error of the lookup or the read |
| `Reconcile.IndexRowTabFree` | spotify_snapshot/outputfileutils.py:91-99 | an index row holds no tab when its free-text fields hold none |
| `Reconcile.IndexRowsSplit` | spotify_snapshot/gitutils.py:99-101 | splitting an index line at tabs gives back its row |
| `Reconcile.IndexLineNotBlank` | spotify_snapshot/gitutils.py:96-97 | an index line is never skipped as blank |
| `Reconcile.IndexLineRoundTrip` | spotify_snapshot/gitutils.py:99-103 | the entry read back from a playlist's index line has that playlist's name and id |
| `Reconcile.DeletedEntriesOfIndex` | spotify_snapshot/gitutils.py:90-104 | for an old index of playlists, exactly the playlists whose line is gone are reported, in index order |
| `Reconcile.ChangedRowReportedDeleted` | spotify_snapshot/gitutils.py:90 | a playlist whose row changed in any column is reported as deleted |
| `Reconcile.TrackCountChangesRow` | spotify_snapshot/outputfileutils.py:95 | a change of track count changes the index line |
| `Reconcile.ChangedRowReported` | spotify_snapshot/gitutils.py:75-105 | an index whose one row changed reports that playlist deleted |
| `Reconcile.RemoveDeletedPlaylists` | spotify_snapshot/gitutils.py:108-128 | as written: `[]` on an unborn branch; else the lookup's error, `[]` when nothing was deleted, or TypeError |
| `Reconcile.DeletedFilePaths` | spotify_snapshot/gitutils.py:122-125 | each deleted playlist's track file, where `get_playlist_file_name` puts it |
| `Reconcile.RemoveFiles` | spotify_snapshot/gitutils.py:122-127 | the `os.remove` loop succeeds exactly when the paths are distinct files; it removes the files before the first failure |
| `Reconcile.RemoveDeletedPlaylistsFixed` | spotify_snapshot/gitutils.py:108-128 | corrected: removes every reported playlist's track file, succeeding exactly when each is a file |
| `CommitMessage.PlaylistStatsShape` | spotify_snapshot/gitutils.py:151-176 | `playlist_stats` has at most one entry, present exactly when the liked-songs file has stats; insertions−1 on the first commit, added/removed afterwards |
| `CommitMessage.OtherFilesIgnored` | spotify_snapshot/gitutils.py:153-154 | any other file's stats leave the liked-songs figures and `playlist_stats` unchanged |
| `CommitMessage.CollectFileStats` | spotify_snapshot/gitutils.py:151-176 | the loop over `stats.files` computes the liked-songs change and `playlist_stats` |
| `CommitMessage.ReadLikedSongsCount` | spotify_snapshot/gitutils.py:179-183 | None when the file is missing, the line count minus one when it is a file, IsADirectoryError on a directory |
| `CommitMessage.CollectRenames` | spotify_snapshot/gitutils.py:206-213 | the first diff loop collects, for each rename whose `a` path is under `playlists/`, the (`a` name, `b` name) pair and the id `rstrip` reads from the `a` path, in diff order |
| `CommitMessage.RenamedIdsMembers` | spotify_snapshot/gitutils.py:206-213 | the renamed ids are exactly the ids `rstrip(").tsv")` reads from the `a` paths of the renames in the diff |
| `CommitMessage.UnrenamedMembers` | spotify_snapshot/gitutils.py:216-220 | the filter keeps exactly the deleted playlists whose id was not renamed |
| `CommitMessage.UnrenamedNone` | spotify_snapshot/gitutils.py:216-220 | with no renames every deleted playlist is kept |
| `CommitMessage.CollectCreated` | spotify_snapshot/gitutils.py:223-231 | the second diff loop collects the names of the `b`-side-only (`new_file`), not renamed, files under `playlists/`, in diff order |
| `CommitMessage.CreatedMembers` | spotify_snapshot/gitutils.py:223-231 | a name is listed as created exactly when a `new_file`, not renamed, playlist file of the diff has it |
| `CommitMessage.CreationNotRename` | spotify_snapshot/gitutils.py:224-229 | no diff item is both a creation and a rename |
| `CommitMessage.Bullets` | spotify_snapshot/gitutils.py:235-236 | one `"- item"` line per item, in order |
| `CommitMessage.AppendBullets` | spotify_snapshot/gitutils.py:235-236 | the loop appends those lines |
| `CommitMessage.AppendSection` | spotify_snapshot/gitutils.py:233-246 | a section is its heading and bullets, appended only when it has items |
| `CommitMessage.AppendChanges` | spotify_snapshot/gitutils.py:248-257 | appends the changed section: the heading is popped when nothing changed |
| `CommitMessage.AppendChangedLines` | spotify_snapshot/gitutils.py:250-255 | appends one line per playlist with additions or removals, in order, and reports whether it appended any |
| `CommitMessage.ChangedLinesEmpty` | spotify_snapshot/gitutils.py:249-255 | no changed line exactly when no entry added or removed lines |
| `CommitMessage.ChangedSectionEmpty` | spotify_snapshot/gitutils.py:248-257 | the heading is popped exactly when no entry changed, and otherwise leads the section |
| `CommitMessage.DeletedSectionWithoutRenames` | spotify_snapshot/gitutils.py:215-241 | with no renames or creations, a later commit lists every deleted playlist, then the changes |
| `CommitMessage.AppendDetails` | spotify_snapshot/gitutils.py:198-199 | the first commit's loop appends one line per `playlist_stats` entry |
| `CommitMessage.DetailLinesSingle` | spotify_snapshot/gitutils.py:198-199 | for the one entry, `"- name: count tracks"` |
| `CommitMessage.AppendFirstCommitDetails` | spotify_snapshot/gitutils.py:195-199 | the first commit appends the number of playlists, the heading and the detail lines |
| `CommitMessage.AppendLaterCommitDetails` | spotify_snapshot/gitutils.py:200-257 | a later commit appends the created, deleted, renamed and changed sections |
| `CommitMessage.CommitDetails` | spotify_snapshot/gitutils.py:185-257 | the detail lines: the liked-songs lines, then the first or later commit's lines |
| `CommitMessage.FirstCommitDetails` | spotify_snapshot/gitutils.py:185-199 | a first commit whose liked-songs file gained `n + 1` lines reports `n` liked songs, then the playlist lines |
| `CommitMessage.FirstCommitPlaylistLines` | spotify_snapshot/gitutils.py:195-199 | those lines: one "playlist", the liked songs, with `n` tracks |
| `CommitMessage.TitleMarksFirstCommit` | spotify_snapshot/gitutils.py:140-145 | the title starts `Initial Spotify Snapshot - ` exactly without parents, `Spotify Snapshot - ` exactly with them, and ends with the time |
| `CommitMessage.TrackFileLastSegment` | spotify_snapshot/gitutils.py:208 | the last `/` segment of a track file path is its base name |
| `CommitMessage.NameOfTrackFile` | spotify_snapshot/gitutils.py:208-209 | the name shown for a track file is the playlist's escaped name, when that holds no `(` |
| `CommitMessage.RenamedIdOfTrackFile` | spotify_snapshot/gitutils.py:211 | corrected: the id taken from a track file path is the playlist's id |
| `CommitMessage.RenamedIdAsWrittenAgrees` | spotify_snapshot/gitutils.py:211 | as written, the id is right when its last character is not one `rstrip` removes |
| `CommitMessage.RenamedIdAsWrittenCounterexample` | spotify_snapshot/gitutils.py:211-220 | as written, id `abcst` is read as `abc`, so the renamed playlist still shows as deleted; the corrected id filters it out |
| `CommitMessage.RenamedIdsFixedMembers` | spotify_snapshot/gitutils.py:211-212 | corrected: the renamed ids are exactly the file-name ids of the renames' `a` paths |
| `CommitMessage.RenamedIdsAgree` | spotify_snapshot/gitutils.py:211-212 | the as-written and corrected id sets coincide whenever `rstrip` reads every renamed id right |
| `CommitMessage.CommitDiffOf` | spotify_snapshot/gitutils.py:206 | `commit.diff(parent)` yields one item per change, the commit on the `a` side |
| `CommitMessage.ParentDiffOf` | spotify_snapshot/gitutils.py:206 | corrected: `parent.diff(commit)` yields one item per change, the parent on the `a` side |
| `CommitMessage.CreatedFromCommitDiff` | spotify_snapshot/gitutils.py:223-231 | as written, "Created Playlists" lists exactly the playlist files the commit deleted |
| `CommitMessage.RenamesFromCommitDiff` | spotify_snapshot/gitutils.py:206-212 | as written, each rename is reported as (new name, old name), and only when the new file is under `playlists/` |
| `CommitMessage.CreatedAsWrittenCounterexample` | spotify_snapshot/gitutils.py:223-231 | a commit adding one playlist file and deleting another reports the deleted one as created; the corrected diff reports the added one |
| `CommitMessage.CreatedFromParentDiff` | spotify_snapshot/gitutils.py:223-231 | corrected: "Created Playlists" lists exactly the playlist files the commit added |
| `CommitMessage.RenamesFromParentDiff` | spotify_snapshot/gitutils.py:206-212 | corrected: each playlist rename is reported as (old name, new name) |
| `CommitMessage.GetCommitMessageForAmending` | spotify_snapshot/gitutils.py:131-260 | RuntimeError before `initialize`; the liked-songs read error; otherwise the title, a blank line and the detail lines |
| `GitCommit.CommitFiles` | spotify_snapshot/gitutils.py:35-62 | no reconciliation on a first commit; a failed one commits nothing; a clean tree gives no commit; otherwise one commit holding the working tree, with the composed message |
| `LegacyGitutils.GetRepoName` | spotify_version_snapshots/gitutils.py:10-14 | "TEST-REPO" in test mode, "spotify-snapshots-repo" otherwise, both relative |
| `LegacyGitutils.Lookup` | spotify_version_snapshots/gitutils.py:55-56 | `key in stats.files` holds exactly for a string key that git reports |
| `LegacyGitutils.SumPlaylistChanges` | spotify_version_snapshots/gitutils.py:47-53 | the loop sums insertions and deletions over the files whose key is not skipped |
| `LegacyGitutils.AsWrittenSkipsNothing` | spotify_version_snapshots/gitutils.py:49-53 | as written, no string path equals a `Path`, so the snapshot files are summed as playlists too |
| `LegacyGitutils.CorrectedSkipsSnapshotFiles` | spotify_version_snapshots/gitutils.py:49-53 | with string keys, a snapshot file's stats never reach the playlist totals |
| `LegacyGitutils.AsWrittenNoSections` | spotify_version_snapshots/gitutils.py:55-92 | as written, the tracks, albums and index lines never appear |
| `LegacyGitutils.CorrectedSections` | spotify_version_snapshots/gitutils.py:55-92 | with string keys, a file's lines appear exactly when it has stats, insertions−1 first, added/removed later |
| `LegacyGitutils.AppendSnapshotLines` | spotify_version_snapshots/gitutils.py:54-92 | the three `if` blocks append the snapshot files' lines |
| `LegacyGitutils.AppendClosingLines` | spotify_version_snapshots/gitutils.py:93-108 | appends tracks across playlists on the first commit, the two totals afterwards |
| `LegacyGitutils.ComposeLegacyMessage` | spotify_version_snapshots/gitutils.py:93-112 | once the playlist count is known, the message is the title, a blank line, and the details with the closing lines |
| `LegacyGitutils.GetCommitMessageForAmending` | spotify_version_snapshots/gitutils.py:38-112 | as written: `Path` keys, and the unguarded index lookup on the first commit |
| `LegacyGitutils.GetCommitMessageForAmendingFixed` | spotify_version_snapshots/gitutils.py:38-112 | corrected: string keys and a missing index counted as 0; never fails |
| `LegacyGitutils.FirstCommitWithoutIndex` | spotify_version_snapshots/gitutils.py:93-101 | a first commit without `playlists.tsv` stats raises KeyError as written and succeeds corrected |
| `LegacyGitutils.LaterCommitsNeverFail` | spotify_version_snapshots/gitutils.py:102-108 | later commits never fail in either version |
| `LegacyGitutils.LegacyTitleShape` | spotify_version_snapshots/gitutils.py:39-45 | no timestamp on a first commit; later titles end with it |
| `LegacyGitutils.TracksMiscountedAsPlaylists` | spotify_version_snapshots/gitutils.py:49-66 | ten added saved tracks: as written no track line and ten playlist additions; corrected the reverse |
| `LegacyOutputFiles.LegacyPlaylistTrackToRow` | spotify_version_snapshots/outputfileutils.py:60-67 | the track row with the raw adder id before the last column |
| `LegacyOutputFiles.LegacyRowDiffersOnlyOnEmptyAdder` | spotify_version_snapshots/outputfileutils.py:60-67 | the older row equals the current one exactly when the adder id is non-empty; otherwise it shows `""` for `<unknown>` |
| `LegacyOutputFiles.LegacyEmptyAdderExample` | spotify_version_snapshots/outputfileutils.py:62-67 | a concrete official-playlist item whose older row has an empty ADDED BY |
| `LegacyOutputFiles.LegacyWriteToFile` | spotify_version_snapshots/outputfileutils.py:29-46 | makes the parent directory first (FileNotFoundError for a bare name, FileExistsError when the directory path is a file, NotADirectoryError when a file is a proper prefix of it), then writes the sorted rows |
| `LegacySpotify.LegacyGetLikedSongs` | spotify_version_snapshots/spotify.py:65-89 | follows `next` to the end and stores each item under its track id without a null check |
| `LegacySpotify.LegacyLikedSongsOutcome` | spotify_version_snapshots/spotify.py:71-85 | fails exactly on a timeout or a None track; otherwise every item is stored, as in the newer fetch |
| `LegacySpotify.LegacyGetTracksFromPlaylist` | spotify_version_snapshots/spotify.py:92-124 | None tracks skipped, test mode keeps the first page, fails exactly on a timeout |
| `LegacySpotify.LegacyGetSavedAlbums` | spotify_version_snapshots/spotify.py:127-149 | albums under their ids; fails exactly on a timeout |
| `LegacySpotify.LegacyGetPlaylists` | spotify_version_snapshots/spotify.py:152-174 | playlists under their ids; fails exactly on a timeout |
| `LegacySpotify.LegacyTestModeFirstPage` | spotify_version_snapshots/spotify.py:140-147 | test mode fails only when the second fetch times out, and returns the first page's items |
| `LegacySpotify.LegacyWriteLikedSongsToGitRepo` | spotify_version_snapshots/spotify.py:216-225 | a timeout of the first request or of a `next` call changes nothing and raises ReadTimeout; otherwise `{repo}/saved_tracks.tsv` is written |
| `LegacySpotify.LegacyWriteSavedAlbumsToGitRepo` | spotify_version_snapshots/spotify.py:228-239 | a timeout of the first request or of a `next` call changes nothing and raises ReadTimeout; otherwise `{repo}/saved_albums.tsv` is written |
| `LegacySpotify.LegacyPlaylistTracksRowable` | spotify_version_snapshots/spotify.py:109-113 | fetched playlist tracks all have a track, so the older row function accepts them |
| `LegacySpotify.TrackFilePath` | spotify_version_snapshots/spotify.py:260-268 | the track file is the escaped base name inside the track directory |
| `LegacySpotify.LegacyTrackFileWritten` | spotify_version_snapshots/spotify.py:258-269 | a playlist's rows end up in its file unless a later playlist reuses it |
| `LegacySpotify.LegacyOtherFilesKept` | spotify_version_snapshots/spotify.py:258-269 | files outside the track directory are untouched by the loop |
| `LegacySpotify.LegacyBackUpPlaylist` | spotify_version_snapshots/spotify.py:259-269 | one pass: a timeout of the first request or of a `next` call changes nothing and raises ReadTimeout, else the track file is written, empty or not |
| `LegacySpotify.LegacyWriteTrackFiles` | spotify_version_snapshots/spotify.py:258-269 | succeeds exactly when every fetch succeeds and the directory and files can be made; then all files are written. When the first fetch succeeds but the directory is blocked, the error is that of making it |
| `LegacySpotify.LegacyWritePlaylistFiles` | spotify_version_snapshots/spotify.py:247-269 | the index, then every track file, succeeding exactly as `PlaylistFilesOutcome` says |
| `LegacySpotify.IndexBlocksTrackDir` | spotify_version_snapshots/spotify.py:247-268 | the index file just written blocks `{repo}/playlists.tsv/` as a directory |
| `LegacySpotify.AsWrittenLayoutNeedsNoPlaylists` | spotify_version_snapshots/spotify.py:247-269 | as written, the write succeeds only when there is no playlist |
| `LegacySpotify.AsWrittenLayoutRaisesFileExists` | spotify_version_snapshots/spotify.py:247-269 | as written, once the index is written and the first playlist's tracks are fetched, the call raises FileExistsError on `{repo}/playlists.tsv` |
| `LegacySpotify.LegacyWritePlaylistsToGitRepo` | spotify_version_snapshots/spotify.py:242-269 | as written: a timeout of the listing changes nothing; FileExistsError when the index could be written and the first playlist's tracks were fetched; success implies no playlists |
| `LegacySpotify.PlaylistsDir` | spotify_version_snapshots/spotify.py:268 | corrected: the track directory `{repo}/playlists/` is not the index path |
| `LegacySpotify.IndexLeavesPlaylistsDirFree` | spotify_version_snapshots/spotify.py:254-268 | writing the index never blocks `{repo}/playlists/` |
| `LegacySpotify.CorrectedLayoutSucceedsInEmptyRepo` | spotify_version_snapshots/spotify.py:242-269 | corrected: in an empty repository the write succeeds whenever every fetch does, and the index stays |
| `LegacySpotify.LegacyWritePlaylistsToPlaylistsDir` | spotify_version_snapshots/spotify.py:242-269 | corrected: the same steps with the track files under `{repo}/playlists/` |

## Left out

- Credentials, the OAuth client, the cache-file chmod and `get_username`: keyring, interactive prompts and calls into the Spotify library.
- Real network calls: each request's response is a given outcome, a page or a read timeout. The first request of a fetch is one outcome, and the `next` calls take theirs from a sequence. Any other exception the library might raise is not modelled.
- `time.sleep` and the retry delays (0.5 s, `retry_delay * (attempt + 1)`): `FetchPaginatedTracks` and the plain loops do not record their sleeps. `GetSavedTracks` counts its sleeps but not their length.
- All logging, `print` and `rprint` output, including the skipped-tracks and skipped-playlists reports. Their inputs are returned or stated instead.
- `pretty_print_tsv_table` in every version: terminal UI.
- `csv.writer` quoting: a row's line is its fields joined by tabs. Fields holding a tab, a quote or a line break would be quoted by Python. `IndexRowsSplit` and `DeletedEntriesOfIndex` therefore require tab-free fields.
- `splitlines()` and `readlines()`: a file is modelled as the list of its lines, so other line-break characters and a missing final newline are not represented.
- The git engine: staging, commit objects, rename similarity and per-file stats are inputs; the diff items are a parameter, and `CommitMessage.CommitDiffOf` states which items `commit.diff(parent)` yields for each change (`Repo` keeps only messages and the HEAD tree). `setup_git_repo_if_needed` in both packages, the older `commit_files` (spotify_version_snapshots/gitutils.py:28-35), and utils/gitutils.py are not part of this model. The older message itself is modelled by `LegacyGitutils.GetCommitMessageForAmending`.
- `datetime.now().strftime(...)`: the timestamp is a string parameter.
- utils/outputfileutils.py: the same code as spotify_snapshot/outputfileutils.py's `write_to_file`, `track_to_row` and `album_to_row`, modelled once by `OutputFiles.WriteToFile`, `OutputFiles.TrackToRow` and `OutputFiles.AlbumToRow`.
- `OffsetPaging.GetSavedTracks`: main.py:29 compares with `is not`, an identity test. CPython caches small integers, so it behaves as `!=` for 50; the model uses `!=`. The ghost parameter `stop`, a request whose page is short, stands for the library ending; it is what makes the loop terminate.
- `Pagination.RetryWalk`: an API sequence that runs out behaves as timeouts from then on, which bounds the walk.
- `Pagination.RetryWalk` and `Pagination.FetchPaginatedTracks` require `max_retries >= 1`. With `max_retries = 0` the source's retry loop never calls `next`, keeps the same page and loops forever (spotify_snapshot/spotify.py:164-183); every caller passes 3.
- `LegacyOutputFiles.LegacyWriteToFile`: its NotADirectoryError carries the directory asked for, where `os.makedirs` names the path just below the blocking file.
- `CommitMessage.AppendDetails`: iterates `playlist_stats` in dict order, not `sorted(...)`. The two agree because the dict never holds more than one entry (`CommitMessage.PlaylistStatsShape`). The same holds for `CommitMessage.AppendChanges`.
- `CommitMessage.FirstCommitDetails`: states the liked-songs line and the playlist lines separately, and `CommitMessage.FirstCommitPlaylistLines` gives the latter.
- `CommitMessage.NameOfTrackFile`: stated only for names whose escaped form holds no `(`. A name holding `" ("` is cut there by `split(" (")[0]`, as in the source.
- `GitCommit.CommitFiles`: on an error after the temporary commit, it states only that the history gained at most that commit. It uses the corrected `RemoveDeletedPlaylistsFixed`, since the as-written call raises whenever a playlist was deleted (see "## Findings").
- Values of the Spotify records beyond the fields the code reads (images, URIs, snapshot ids).

## Findings

| source | as written | input that shows it | evidently intended | confidence | as-written member | corrected member |
|---|---|---|---|---|---|---|
| spotify_version_snapshots/outputfileutils.py:62-67 | computes `added_by_id` with the `<unknown>` sentinel, then puts `item["added_by"]["id"]` in the row | a playlist item whose `added_by.id` is `""` | the row shows `<unknown>`, as the newer package does | high; not executed | `LegacyOutputFiles.LegacyEmptyAdderExample` | `OutputFiles.AddedByLabel` |
| spotify_version_snapshots/spotify.py:254-268 | track files go under `{repo}/playlists.tsv/`, the path of the index file just written | a library with one playlist whose tracks fetch: `os.makedirs` raises FileExistsError | a separate directory for the track files, as the newer package's `playlists/` | high; not executed | `LegacySpotify.AsWrittenLayoutRaisesFileExists` | `LegacySpotify.CorrectedLayoutSucceedsInEmptyRepo` |
| spotify_snapshot/gitutils.py:211 | `rstrip(").tsv")` strips a set of characters | a renamed playlist whose id ends in `st` (`abcst`): the id read is `abc`, so the playlist still shows under "Deleted Playlists" | strip the `").tsv"` suffix once | high; not executed | `CommitMessage.RenamedIdAsWrittenCounterexample` | `CommitMessage.RenamedIdsFixedMembers` |
| spotify_snapshot/gitutils.py:206-231 | diffs the commit against its parent, so the commit is GitPython's `a` side and `new_file` marks what only the parent has | a commit that adds playlist file A and deletes playlist file B: "Created Playlists" lists B, not A, and a rename prints as new â†’ old | `commit.parents[0].diff(commit)` | medium; not executed | `CommitMessage.CreatedFromCommitDiff` | `CommitMessage.CreatedFromParentDiff` |
| spotify_snapshot/gitutils.py:123-125 | passes the repository name and the playlist to the one-parameter `get_playlist_file_name` | any commit after the first where a playlist's index row changed (its track count, say): TypeError | `get_playlist_file_name(playlist)` | high; not executed | `Reconcile.ChangedRowReported` | `Reconcile.RemoveDeletedPlaylistsFixed` |
| spotify_version_snapshots/gitutils.py:50-79 | compares the string paths of `stats.files` with the `Path` values of `FILENAMES` | a later commit adding ten saved tracks: no "Added Tracks" line, and the ten count as playlist additions | compare the file names as strings | high; not executed | `LegacyGitutils.TracksMiscountedAsPlaylists` | `LegacyGitutils.CorrectedSections` |
| spotify_version_snapshots/gitutils.py:96 | indexes `stats.files["playlists.tsv"]` directly | a first commit without the index file: KeyError | a guarded lookup, as the comment says ("just be safe") | medium; not executed | `LegacyGitutils.FirstCommitWithoutIndex` | `LegacyGitutils.GetCommitMessageForAmendingFixed` |
