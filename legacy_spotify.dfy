/**
 * The older fetch-and-write steps (spotify_version_snapshots/spotify.py):
 * plain `while True` paging loops with a `test_mode` early exit, and the
 * writers that put `saved_tracks.tsv`, `saved_albums.tsv` and
 * `playlists.tsv` into the snapshots repository `repo`, a single path part
 * as `get_repo_name` returns it. Each playlist's track file goes under
 * `{repo}/playlists.tsv/`, which is the index file itself.
 */
module LegacySpotify {
  import opened Wrappers
  import opened PyDict
  import opened SpotifyDatatypes
  import opened FileTree
  import opened OutputFiles
  import opened Pagination
  import opened Snapshot
  import opened LegacyOutputFiles
  import opened LegacyConstants
  import OutputManager

  /** What `get_liked_songs` returns or raises: no null-track check, so `item["track"]["id"]` raises TypeError on a None track. */
  function LegacyLikedSongs(initial: Page<TrackItem>, api: seq<Outcome<TrackItem>>): Result<Dict<string, TrackItem>>
  {
    Collected(PlainWalk(initial, api, 0, false), TrackId, HasTrack, RaiseOnMissing)
  }

  /** `get_liked_songs`: follows `next` until a page has none; there is no `test_mode`. */
  method LegacyGetLikedSongs(initial: Page<TrackItem>, api: seq<Outcome<TrackItem>>)
    returns (r: Result<Dict<string, TrackItem>>)
    ensures r == LegacyLikedSongs(initial, api)
  {
    r := FollowPages(initial, api, TrackId, HasTrack, RaiseOnMissing, false);
  }

  /**
   * The liked songs fail exactly when a `next` call timed out or a processed
   * item has no track; otherwise nothing was skipped, and the result is the
   * dict of `_fetch_paginated_tracks` for the same items.
   */
  lemma LegacyLikedSongsOutcome(initial: Page<TrackItem>, api: seq<Outcome<TrackItem>>)
    ensures var w := PlainWalk(initial, api, 0, false);
      var items := Items(w.pages);
      var r := LegacyLikedSongs(initial, api);
      && (r.Err? <==> !w.complete || exists i :: 0 <= i < |items| && items[i].track.None?)
      && (r.Ok? ==> r.value == FetchedTracks(items))
      && (r.Ok? ==> forall i :: 0 <= i < |items| ==> items[i].track.Some? && items[i].track.value.id in r.value.entries)
  {
    var w := PlainWalk(initial, api, 0, false);
    var items := Items(w.pages);
    CollectedFails(w, TrackId, HasTrack, RaiseOnMissing);
    var r := LegacyLikedSongs(initial, api);
    assert r == Collected(w, TrackId, HasTrack, RaiseOnMissing);
    if r.Ok? {
      assert !exists i :: 0 <= i < |items| && !HasTrack(items[i]);
      forall i | 0 <= i < |items|
        ensures items[i].track.Some? && items[i].track.value.id in r.value.entries
      {
        assert HasTrack(items[i]);
        FetchedTracksKeys(items, items[i].track.value.id);
      }
    }
  }

  /** `get_tracks_from_playlist`: None tracks are skipped; in test mode only the first page is kept. */
  method LegacyGetTracksFromPlaylist(initial: Page<TrackItem>, api: seq<Outcome<TrackItem>>, testMode: bool)
    returns (r: Result<Dict<string, TrackItem>>)
    ensures r == Collected(PlainWalk(initial, api, 0, testMode), TrackId, HasTrack, SkipMissing)
    ensures r.Err? <==> !PlainWalk(initial, api, 0, testMode).complete
    ensures r.Ok? ==> r.value == FetchedTracks(Items(PlainWalk(initial, api, 0, testMode).pages))
  {
    r := FollowPages(initial, api, TrackId, HasTrack, SkipMissing, testMode);
  }

  /** `get_saved_albums`: each album under its album id; in test mode only the first page is kept. */
  method LegacyGetSavedAlbums(initial: Page<SavedAlbumItem>, api: seq<Outcome<SavedAlbumItem>>, testMode: bool)
    returns (r: Result<Dict<string, SavedAlbumItem>>)
    ensures r == Collected(PlainWalk(initial, api, 0, testMode), AlbumId, Always, SkipMissing)
    ensures r.Err? <==> !PlainWalk(initial, api, 0, testMode).complete
  {
    r := FollowPages(initial, api, AlbumId, Always, SkipMissing, testMode);
  }

  /** `get_playlists`: each playlist under its id; in test mode only the first page is kept. */
  method LegacyGetPlaylists(initial: Page<Playlist>, api: seq<Outcome<Playlist>>, testMode: bool)
    returns (r: Result<Dict<string, Playlist>>)
    ensures r == Collected(PlainWalk(initial, api, 0, testMode), PlaylistId, Always, SkipMissing)
    ensures r.Err? <==> !PlainWalk(initial, api, 0, testMode).complete
  {
    r := FollowPages(initial, api, PlaylistId, Always, SkipMissing, testMode);
  }

  /**
   * In test mode a loop keeps the items of the first page only: it fails
   * only when the fetch of the second page times out, and otherwise returns
   * the first page's items under their keys.
   */
  lemma LegacyTestModeFirstPage<T>(initial: Page<T>, api: seq<Outcome<T>>, key: T -> string, present: T -> bool)
    ensures var r := Collected(PlainWalk(initial, api, 0, true), key, present, SkipMissing);
      && (r.Err? <==> HasNext(initial) && OutcomeAt(api, 0).TimedOut?)
      && (r.Ok? ==> r.value == InsertAll(Empty(), Filter(initial.items, present), key))
  {
    TestModeFirstPageOnly(initial, api);
    assert Items([initial]) == initial.items by {
      assert [initial][..0] == [];
    }
  }

  /** The lines of `saved_tracks.tsv` for the liked songs: sorted by `(added_at, track name)`. */
  ghost function LikedSongsFileLines(tracks: Dict<string, TrackItem>): seq<string>
  {
    if tracks.Valid() && AllRowable(tracks.Values(), TrackToRow) then
      TsvLines(SnapshotRows(tracks, TrackSortKey, TrackToRow, TRACK_HEADER_ROW))
    else []
  }

  /**
   * `write_liked_songs_to_git_repo`: fetches the liked songs (a timeout of
   * `current_user_saved_tracks` or of a `next`, or a None track, raises) and
   * writes `{repo}/saved_tracks.tsv`.
   */
  method LegacyWriteLikedSongsToGitRepo(fs: FileSystem, first: Outcome<TrackItem>, api: seq<Outcome<TrackItem>>,
                                        repo: string)
    returns (r: Result<()>)
    requires fs.Valid()
    modifies fs
    ensures fs.Valid()
    ensures first.TimedOut? ==> r == Err(ReadTimeout) && fs.dirs == old(fs.dirs) && fs.files == old(fs.files)
    ensures first.Fetched? ==>
      var liked := LegacyLikedSongs(first.page, api);
      && (liked.Err? ==> r == Err(liked.error) && fs.dirs == old(fs.dirs) && fs.files == old(fs.files))
      && (liked.Ok? ==> LegacyWriteOutcome(old(fs.dirs), old(fs.files), fs.dirs, fs.files,
                                           [repo, FileName(Tracks)], LikedSongsFileLines(liked.value), r))
  {
    if first.TimedOut? {
      return Err(ReadTimeout);
    }
    var initial := first.page;
    var savedTracks := LegacyGetLikedSongs(initial, api);
    if savedTracks.Err? {
      return Err(savedTracks.error);
    }
    LegacyLikedSongsOutcome(initial, api);
    FetchedTracksStored(Items(PlainWalk(initial, api, 0, false).pages));
    r := LegacyWriteToFile(fs, savedTracks.value, TrackSortKey, TrackToRow, TRACK_HEADER_ROW, [repo, FileName(Tracks)]);
  }

  /**
   * `write_saved_albums_to_git_repo`: fetches the saved albums (a timeout of
   * `current_user_saved_albums` or of a `next` raises) and writes
   * `{repo}/saved_albums.tsv` sorted by `(added_at, album name)`.
   */
  method LegacyWriteSavedAlbumsToGitRepo(fs: FileSystem, first: Outcome<SavedAlbumItem>,
                                         api: seq<Outcome<SavedAlbumItem>>, repo: string)
    returns (r: Result<()>)
    requires fs.Valid()
    modifies fs
    ensures fs.Valid()
    ensures first.TimedOut? || !PlainWalk(first.page, api, 0, false).complete ==>
      r == Err(ReadTimeout) && fs.dirs == old(fs.dirs) && fs.files == old(fs.files)
    ensures first.Fetched? && PlainWalk(first.page, api, 0, false).complete ==>
      LegacyWriteOutcome(old(fs.dirs), old(fs.files), fs.dirs, fs.files, [repo, FileName(Albums)],
                         TsvLines(SnapshotRows(SavedAlbums(first.page, api), AlbumSortKey, AlbumToRow, ALBUM_HEADER_ROW)), r)
  {
    if first.TimedOut? {
      return Err(ReadTimeout);
    }
    var initial := first.page;
    var savedAlbums := LegacyGetSavedAlbums(initial, api, false);
    if savedAlbums.Err? {
      return Err(savedAlbums.error);
    }
    SavedAlbumsCollected(initial, api);
    r := LegacyWriteToFile(fs, savedAlbums.value, AlbumSortKey, AlbumToRow, ALBUM_HEADER_ROW, [repo, FileName(Albums)]);
  }

  /**
   * What `get_tracks_from_playlist` returns or raises for one playlist's
   * responses, outside test mode: a timeout of the `playlist_tracks` request
   * or of a `next` raises.
   */
  function LegacyPlaylistTracks(f: PlaylistFetch): Result<Dict<string, TrackItem>>
  {
    if f.first.TimedOut? then Err(ReadTimeout)
    else Collected(PlainWalk(f.first.page, f.api, 0, false), TrackId, HasTrack, SkipMissing)
  }

  /** A fetched playlist's tracks all have a track, so the older row function accepts them. */
  lemma LegacyPlaylistTracksRowable(f: PlaylistFetch)
    requires LegacyPlaylistTracks(f).Ok?
    ensures var d := LegacyPlaylistTracks(f).value;
      d.Valid() && KeyedBy(d, TrackId) && AllRowable(d.Values(), LegacyPlaylistTrackToRow)
  {
    FetchedTracksStored(Items(PlainWalk(f.first.page, f.api, 0, false).pages));
  }

  /** The lines of a playlist's track file: sorted by `(added_at, track name)`, with the raw ADDED BY id. */
  ghost function LegacyTrackFileLines(tracks: Dict<string, TrackItem>): seq<string>
  {
    if tracks.Valid() && AllRowable(tracks.Values(), LegacyPlaylistTrackToRow) then
      TsvLines(SnapshotRows(tracks, TrackSortKey, LegacyPlaylistTrackToRow, TRACK_IN_PLAYLIST_HEADER_ROW))
    else []
  }

  /** `f"{trackDir}/{escaped_playlist_name} ({playlist['id']}).tsv"`. */
  function TrackFilePath(trackDir: Path, pl: Playlist): (path: Path)
    ensures |path| == |trackDir| + 1 && Parent(path) == trackDir
    ensures path[|trackDir|] == PlaylistBaseName(pl.name, pl.id)
  {
    trackDir + [PlaylistBaseName(pl.name, pl.id)]
  }

  /** `get_tracks_from_playlist` for each playlist of `ps`, in order. */
  function LegacyTracksOfAll(ps: seq<Playlist>, fetches: Playlist -> PlaylistFetch): (rs: seq<Result<Dict<string, TrackItem>>>)
    ensures |rs| == |ps|
  {
    seq(|ps|, i requires 0 <= i < |ps| => LegacyPlaylistTracks(fetches(ps[i])))
  }

  /** The content of each fetched playlist's track file, in order. */
  ghost function LegacyTrackFileContents(rs: seq<Result<Dict<string, TrackItem>>>): (contents: seq<seq<string>>)
    ensures |contents| == |rs|
  {
    seq(|rs|, i requires 0 <= i < |rs| => if rs[i].Ok? then LegacyTrackFileLines(rs[i].value) else [])
  }

  /** `rs` holds, position by position, the outcome of fetching each playlist's tracks. */
  ghost predicate LegacyFetchedEach(ps: seq<Playlist>, fetches: Playlist -> PlaylistFetch,
                                    rs: seq<Result<Dict<string, TrackItem>>>)
  {
    && |rs| == |ps|
    && forall j {:trigger fetches(ps[j])} :: 0 <= j < |ps| ==> rs[j] == LegacyPlaylistTracks(fetches(ps[j]))
  }

  /** `contents` holds, position by position, the lines of each fetched dict's track file. */
  ghost predicate LegacyLinesOfEach(rs: seq<Result<Dict<string, TrackItem>>>, contents: seq<seq<string>>)
  {
    && |contents| == |rs|
    && forall j {:trigger LegacyTrackFileLines(rs[j].value)} :: 0 <= j < |rs| && rs[j].Ok? ==>
      contents[j] == LegacyTrackFileLines(rs[j].value)
  }

  lemma LegacyTracksOfAllFetchedEach(ps: seq<Playlist>, fetches: Playlist -> PlaylistFetch)
    ensures LegacyFetchedEach(ps, fetches, LegacyTracksOfAll(ps, fetches))
  {
  }

  lemma LegacyTrackFileContentsLinesOfEach(rs: seq<Result<Dict<string, TrackItem>>>)
    ensures LegacyLinesOfEach(rs, LegacyTrackFileContents(rs))
  {
  }

  /** None of the first `n` fetches raised. */
  predicate AllFetched(rs: seq<Result<Dict<string, TrackItem>>>, n: nat)
    requires n <= |rs|
  {
    forall i :: 0 <= i < n ==> rs[i].Ok?
  }

  /** The files after the first `n` passes of the loop: `contents[i]` written to the track file of `ps[i]`, in loop order. */
  ghost function LegacyTrackFilesAfter(files: map<Path, seq<string>>, trackDir: Path, ps: seq<Playlist>,
                                       contents: seq<seq<string>>, n: nat): map<Path, seq<string>>
    requires |contents| == |ps| && n <= |ps|
  {
    if n == 0 then files
    else LegacyTrackFilesAfter(files, trackDir, ps, contents, n - 1)[TrackFilePath(trackDir, ps[n - 1]) := contents[n - 1]]
  }

  /** The track file of each of the first `n` playlists can be opened once `dirs` exist. */
  ghost predicate AllTrackPathsWritable(dirs: set<Path>, trackDir: Path, ps: seq<Playlist>, n: nat)
    requires n <= |ps|
  {
    forall i :: 0 <= i < n ==> CanWriteIn(dirs, TrackFilePath(trackDir, ps[i]))
  }

  /** A playlist whose file no later playlist reuses ends up with its rows in that file. */
  lemma {:induction false} LegacyTrackFileWritten(files: map<Path, seq<string>>, trackDir: Path, ps: seq<Playlist>,
                                                  contents: seq<seq<string>>, n: nat, i: nat)
    requires |contents| == |ps| && i < n <= |ps|
    requires forall j :: i < j < n ==> TrackFilePath(trackDir, ps[j]) != TrackFilePath(trackDir, ps[i])
    ensures TrackFilePath(trackDir, ps[i]) in LegacyTrackFilesAfter(files, trackDir, ps, contents, n)
    ensures LegacyTrackFilesAfter(files, trackDir, ps, contents, n)[TrackFilePath(trackDir, ps[i])] == contents[i]
  {
    if i < n - 1 {
      LegacyTrackFileWritten(files, trackDir, ps, contents, n - 1, i);
    }
  }

  /** Only track files inside `trackDir` change: every other path keeps its content (or stays absent). */
  lemma {:induction false} LegacyOtherFilesKept(files: map<Path, seq<string>>, trackDir: Path, ps: seq<Playlist>,
                                                contents: seq<seq<string>>, n: nat, path: Path)
    requires |contents| == |ps| && n <= |ps| && Parent(path) != trackDir
    ensures path in LegacyTrackFilesAfter(files, trackDir, ps, contents, n) <==> path in files
    ensures path in files ==> LegacyTrackFilesAfter(files, trackDir, ps, contents, n)[path] == files[path]
  {
    if n > 0 {
      LegacyOtherFilesKept(files, trackDir, ps, contents, n - 1, path);
    }
  }

  /** One more pass of the loop: how its running results extend from `n` playlists to `n + 1`. */
  lemma LegacyLoopStep(files: map<Path, seq<string>>, dirs: set<Path>, trackDir: Path, ps: seq<Playlist>,
                       rs: seq<Result<Dict<string, TrackItem>>>, contents: seq<seq<string>>, n: nat)
    requires |rs| == |ps| && |contents| == |ps| && n < |ps|
    ensures LegacyTrackFilesAfter(files, trackDir, ps, contents, n + 1) ==
      LegacyTrackFilesAfter(files, trackDir, ps, contents, n)[TrackFilePath(trackDir, ps[n]) := contents[n]]
    ensures AllFetched(rs, n + 1) <==> AllFetched(rs, n) && rs[n].Ok?
    ensures AllTrackPathsWritable(dirs, trackDir, ps, n + 1) <==>
      AllTrackPathsWritable(dirs, trackDir, ps, n) && CanWriteIn(dirs, TrackFilePath(trackDir, ps[n]))
  {
  }

  /**
   * Pass `i` of the `for playlist in playlists.values()` loop: fetches the
   * tracks of `ps[i]` (a timeout raises) and writes its track file under
   * `trackDir`, empty or not.
   */
  method LegacyBackUpPlaylist(fs: FileSystem, trackDir: Path, ps: seq<Playlist>, fetches: Playlist -> PlaylistFetch,
                              ghost rs: seq<Result<Dict<string, TrackItem>>>, ghost contents: seq<seq<string>>, i: nat)
    returns (r: Result<()>)
    requires fs.Valid() && LegacyFetchedEach(ps, fetches, rs) && LegacyLinesOfEach(rs, contents) && i < |ps|
    modifies fs
    ensures fs.Valid()
    ensures rs[i].Err? ==> r == Err(rs[i].error) && fs.dirs == old(fs.dirs) && fs.files == old(fs.files)
    ensures rs[i].Ok? ==>
      LegacyWriteOutcome(old(fs.dirs), old(fs.files), fs.dirs, fs.files, TrackFilePath(trackDir, ps[i]), contents[i], r)
  {
    var playlist := ps[i];
    var fetch := fetches(playlist);
    if fetch.first.TimedOut? {
      return Err(ReadTimeout);
    }
    var playlistTracks := LegacyGetTracksFromPlaylist(fetch.first.page, fetch.api, false);
    if playlistTracks.Err? {
      return Err(playlistTracks.error);
    }
    LegacyPlaylistTracksRowable(fetch);
    r := LegacyWriteToFile(fs, playlistTracks.value, TrackSortKey, LegacyPlaylistTrackToRow,
                           TRACK_IN_PLAYLIST_HEADER_ROW, TrackFilePath(trackDir, playlist));
    assert contents[i] == LegacyTrackFileLines(rs[i].value);
  }

  /**
   * Pass `i` of the loop, seen from the loop's start: with the first `i`
   * passes done (files `files0` and directories `dirs0` before them), it
   * either completes pass `i + 1` or fails for a reason that makes the
   * whole loop fail.
   */
  method LegacyTrackFileStep(fs: FileSystem, trackDir: Path, ps: seq<Playlist>, fetches: Playlist -> PlaylistFetch,
                             ghost rs: seq<Result<Dict<string, TrackItem>>>, ghost contents: seq<seq<string>>,
                             ghost files0: map<Path, seq<string>>, ghost dirs0: set<Path>, i: nat)
    returns (r: Result<()>)
    requires fs.Valid() && trackDir != [] && LegacyFetchedEach(ps, fetches, rs) && LegacyLinesOfEach(rs, contents)
    requires i < |ps|
    requires fs.files == LegacyTrackFilesAfter(files0, trackDir, ps, contents, i)
    requires fs.dirs == if i == 0 then dirs0 else dirs0 + Ancestors(trackDir)
    requires AllFetched(rs, i)
    requires i > 0 ==> !BlockedIn(files0, trackDir) && AllTrackPathsWritable(dirs0 + Ancestors(trackDir), trackDir, ps, i)
    modifies fs
    ensures fs.Valid()
    ensures r.Ok? ==>
      && fs.files == LegacyTrackFilesAfter(files0, trackDir, ps, contents, i + 1)
      && fs.dirs == dirs0 + Ancestors(trackDir)
      && AllFetched(rs, i + 1)
      && !BlockedIn(files0, trackDir) && AllTrackPathsWritable(dirs0 + Ancestors(trackDir), trackDir, ps, i + 1)
    ensures r.Err? ==>
      && fs.files == old(fs.files)
      && !(AllFetched(rs, |ps|) && !BlockedIn(files0, trackDir) &&
           AllTrackPathsWritable(dirs0 + Ancestors(trackDir), trackDir, ps, |ps|))
    ensures i == 0 && rs[0].Ok? && BlockedIn(files0, trackDir) ==> r == Err(MakeDirsError(files0, trackDir))
  {
    ghost var made := dirs0 + Ancestors(trackDir);
    LegacyLoopStep(files0, made, trackDir, ps, rs, contents, i);
    ghost var path := TrackFilePath(trackDir, ps[i]);
    assert path !in Ancestors(trackDir);
    if i > 0 {
      fs.DirNotBlocked(trackDir);
    }
    r := LegacyBackUpPlaylist(fs, trackDir, ps, fetches, rs, contents, i);
  }

  /**
   * The `for playlist in playlists.values()` loop of the older
   * `write_playlists_to_git_repo`, writing into `trackDir`: every playlist
   * gets a track file, and the first fetch or write that fails raises out
   * of the loop. `trackDir` is made on the first write, so it must not be
   * blocked by a file then; afterwards it is a directory.
   */
  method LegacyWriteTrackFiles(fs: FileSystem, trackDir: Path, ps: seq<Playlist>, fetches: Playlist -> PlaylistFetch,
                               ghost rs: seq<Result<Dict<string, TrackItem>>>, ghost contents: seq<seq<string>>)
    returns (r: Result<()>)
    requires fs.Valid() && trackDir != [] && LegacyFetchedEach(ps, fetches, rs) && LegacyLinesOfEach(rs, contents)
    modifies fs
    ensures fs.Valid()
    ensures var made := old(fs.dirs) + Ancestors(trackDir);
      && (r.Ok? <==> AllFetched(rs, |ps|) &&
                     (|ps| > 0 ==> !BlockedIn(old(fs.files), trackDir) && AllTrackPathsWritable(made, trackDir, ps, |ps|)))
      && (r.Ok? ==> fs.files == LegacyTrackFilesAfter(old(fs.files), trackDir, ps, contents, |ps|))
      && (r.Ok? ==> fs.dirs == if |ps| == 0 then old(fs.dirs) else made)
      && (r.Err? ==> exists n :: 0 <= n < |ps| && fs.files == LegacyTrackFilesAfter(old(fs.files), trackDir, ps, contents, n))
      && (|ps| > 0 && rs[0].Ok? && BlockedIn(old(fs.files), trackDir) ==> r == Err(MakeDirsError(old(fs.files), trackDir)))
  {
    ghost var files0, dirs0 := fs.files, fs.dirs;
    var i := 0;
    while i < |ps|
      invariant 0 <= i <= |ps| && fs.Valid()
      invariant fs.files == LegacyTrackFilesAfter(files0, trackDir, ps, contents, i)
      invariant fs.dirs == if i == 0 then dirs0 else dirs0 + Ancestors(trackDir)
      invariant AllFetched(rs, i)
      invariant i > 0 ==> !BlockedIn(files0, trackDir) && AllTrackPathsWritable(dirs0 + Ancestors(trackDir), trackDir, ps, i)
    {
      r := LegacyTrackFileStep(fs, trackDir, ps, fetches, rs, contents, files0, dirs0, i);
      if r.Err? {
        return;
      }
      i := i + 1;
    }
    r := Ok(());
  }

  /**
   * What writing the playlist index to `indexPath` and then every track file
   * under `trackDir` does, from directories `dirs` and files `files` to files
   * `files'`: the whole succeeds exactly when the index can be written, every
   * fetch succeeds and, if there is any playlist, `trackDir` can be made after
   * the index exists and every track file can be opened in it. When the
   * first playlist's tracks are fetched but `trackDir` is blocked, making it
   * raises.
   */
  ghost predicate PlaylistFilesOutcome(dirs: set<Path>, files: map<Path, seq<string>>, files': map<Path, seq<string>>,
                                       playlists: Dict<string, Playlist>, fetches: Playlist -> PlaylistFetch,
                                       indexPath: Path, trackDir: Path, r: Result<()>)
    requires playlists.Valid()
  {
    var lines := TsvLines(SnapshotRows(playlists, PlaylistSortKey, PlaylistToRow, PLAYLIST_HEADER_ROW));
    var indexDir := Parent(indexPath);
    var indexOk := indexDir != [] && !BlockedIn(files, indexDir) && indexPath !in dirs;
    var indexed := files[indexPath := lines];
    var made := dirs + Ancestors(indexDir) + Ancestors(trackDir);
    var ps := playlists.Values();
    var rs := LegacyTracksOfAll(ps, fetches);
    && (!indexOk ==> r.Err? && files' == files)
    && (r.Ok? <==> indexOk && AllFetched(rs, |ps|) &&
                   (|ps| > 0 ==> !BlockedIn(indexed, trackDir) && AllTrackPathsWritable(made, trackDir, ps, |ps|)))
    && (r.Ok? ==> files' == LegacyTrackFilesAfter(indexed, trackDir, ps, LegacyTrackFileContents(rs), |ps|))
    && (indexOk && |ps| > 0 && rs[0].Ok? && BlockedIn(indexed, trackDir) ==> r == Err(MakeDirsError(indexed, trackDir)))
  }

  /**
   * The part of the older `write_playlists_to_git_repo` after the playlists
   * are fetched: writes the index to `indexPath` sorted by id, then every
   * playlist's track file under `trackDir`.
   */
  method LegacyWritePlaylistFiles(fs: FileSystem, playlists: Dict<string, Playlist>, fetches: Playlist -> PlaylistFetch,
                                  indexPath: Path, trackDir: Path)
    returns (r: Result<()>)
    requires fs.Valid() && playlists.Valid() && trackDir != []
    modifies fs
    ensures fs.Valid()
    ensures PlaylistFilesOutcome(old(fs.dirs), old(fs.files), fs.files, playlists, fetches, indexPath, trackDir, r)
  {
    ghost var dirs0 := fs.dirs;
    r := LegacyWriteToFile(fs, playlists, PlaylistSortKey, PlaylistToRow, PLAYLIST_HEADER_ROW, indexPath);
    if r.Err? {
      return;
    }
    assert fs.dirs == dirs0 + Ancestors(Parent(indexPath));
    var ps := playlists.Values();
    ghost var rs := LegacyTracksOfAll(ps, fetches);
    LegacyTracksOfAllFetchedEach(ps, fetches);
    LegacyTrackFileContentsLinesOfEach(rs);
    r := LegacyWriteTrackFiles(fs, trackDir, ps, fetches, rs, LegacyTrackFileContents(rs));
  }

  /** The index file sits exactly where the older code wants the directory of track files: it blocks it. */
  lemma IndexBlocksTrackDir(files: map<Path, seq<string>>, indexPath: Path, lines: seq<string>)
    requires indexPath != []
    ensures BlockedIn(files[indexPath := lines], indexPath)
  {
    assert indexPath[..|indexPath|] == indexPath;
  }

  /** With the track files under `{repo}/playlists.tsv/`, the write succeeds only when there is no playlist at all. */
  lemma AsWrittenLayoutNeedsNoPlaylists(dirs: set<Path>, files: map<Path, seq<string>>, files': map<Path, seq<string>>,
                                        playlists: Dict<string, Playlist>, fetches: Playlist -> PlaylistFetch,
                                        repo: string, r: Result<()>)
    requires playlists.Valid()
    requires PlaylistFilesOutcome(dirs, files, files', playlists, fetches,
                                  [repo, FileName(Playlists)], [repo, FileName(Playlists)], r)
    ensures r.Ok? ==> playlists.Len() == 0
  {
    var lines := TsvLines(SnapshotRows(playlists, PlaylistSortKey, PlaylistToRow, PLAYLIST_HEADER_ROW));
    IndexBlocksTrackDir(files, [repo, FileName(Playlists)], lines);
  }

  /**
   * With the track files under `{repo}/playlists.tsv/`, once the index is
   * written and the first playlist's tracks are fetched, making the track
   * directory raises FileExistsError: its path is the index file.
   */
  lemma AsWrittenLayoutRaisesFileExists(dirs: set<Path>, files: map<Path, seq<string>>, files': map<Path, seq<string>>,
                                        playlists: Dict<string, Playlist>, fetches: Playlist -> PlaylistFetch,
                                        repo: string, r: Result<()>)
    requires playlists.Valid()
    requires PlaylistFilesOutcome(dirs, files, files', playlists, fetches,
                                  [repo, FileName(Playlists)], [repo, FileName(Playlists)], r)
    requires !BlockedIn(files, [repo]) && [repo, FileName(Playlists)] !in dirs
    requires playlists.Len() > 0 && LegacyPlaylistTracks(fetches(playlists.Values()[0])).Ok?
    ensures r == Err(FileExistsError([repo, FileName(Playlists)]))
  {
    var indexPath := [repo, FileName(Playlists)];
    var lines := TsvLines(SnapshotRows(playlists, PlaylistSortKey, PlaylistToRow, PLAYLIST_HEADER_ROW));
    assert Parent(indexPath) == [repo];
    IndexBlocksTrackDir(files, indexPath, lines);
  }

  /**
   * `write_playlists_to_git_repo` as written: fetches the playlists (a
   * timeout of `current_user_playlists` or of a `next` raises), writes
   * `{repo}/playlists.tsv`, then writes each playlist's track file under
   * `{repo}/playlists.tsv/`. Making that directory fails on the index file
   * just written, so the call raises FileExistsError as soon as the first
   * playlist's tracks are fetched.
   */
  method LegacyWritePlaylistsToGitRepo(fs: FileSystem, first: Outcome<Playlist>, api: seq<Outcome<Playlist>>,
                                       fetches: Playlist -> PlaylistFetch, repo: string)
    returns (r: Result<()>)
    requires fs.Valid()
    modifies fs
    ensures fs.Valid()
    ensures first.TimedOut? || !PlainWalk(first.page, api, 0, false).complete ==>
      r == Err(ReadTimeout) && fs.dirs == old(fs.dirs) && fs.files == old(fs.files)
    ensures first.Fetched? && PlainWalk(first.page, api, 0, false).complete ==>
      PlaylistFilesOutcome(old(fs.dirs), old(fs.files), fs.files, ListedPlaylists(first.page, api), fetches,
                           [repo, FileName(Playlists)], [repo, FileName(Playlists)], r)
    ensures first.Fetched? && PlainWalk(first.page, api, 0, false).complete ==>
      var ps := ListedPlaylists(first.page, api).Values();
      |ps| > 0 && LegacyPlaylistTracks(fetches(ps[0])).Ok? &&
      !BlockedIn(old(fs.files), [repo]) && [repo, FileName(Playlists)] !in old(fs.dirs) ==>
        r == Err(FileExistsError([repo, FileName(Playlists)]))
    ensures r.Ok? ==> first.Fetched? && ListedPlaylists(first.page, api).Len() == 0
  {
    if first.TimedOut? {
      return Err(ReadTimeout);
    }
    var initial := first.page;
    var playlists := LegacyGetPlaylists(initial, api, false);
    if playlists.Err? {
      return Err(playlists.error);
    }
    ListedPlaylistsCollected(initial, api);
    var playlistsFile := [repo, FileName(Playlists)];
    r := LegacyWritePlaylistFiles(fs, playlists.value, fetches, playlistsFile, playlistsFile);
    AsWrittenLayoutNeedsNoPlaylists(old(fs.dirs), old(fs.files), fs.files, playlists.value, fetches, repo, r);
    if playlists.value.Len() > 0 && LegacyPlaylistTracks(fetches(playlists.value.Values()[0])).Ok? &&
       !BlockedIn(old(fs.files), [repo]) && playlistsFile !in old(fs.dirs) {
      AsWrittenLayoutRaisesFileExists(old(fs.dirs), old(fs.files), fs.files, playlists.value, fetches, repo, r);
    }
  }

  /** The directory the track files evidently belong in: `{repo}/playlists/`, beside the index rather than on it. */
  function PlaylistsDir(repo: string): (dir: Path)
    ensures dir != [] && dir != [repo, FileName(Playlists)]
  {
    [repo, OutputManager.PLAYLISTS_DIRNAME]
  }

  /** Writing the index never blocks `{repo}/playlists/`. */
  lemma IndexLeavesPlaylistsDirFree(files: map<Path, seq<string>>, repo: string, lines: seq<string>)
    ensures BlockedIn(files[[repo, FileName(Playlists)] := lines], PlaylistsDir(repo)) <==> BlockedIn(files, PlaylistsDir(repo))
  {
    var dir := PlaylistsDir(repo);
    assert dir[..1] == [repo] && dir[..2] == dir;
    assert [repo] != [repo, FileName(Playlists)];
  }

  /** In an existing, empty snapshots repository, the index, `{repo}/playlists/` and every track file in it can be written. */
  lemma EmptyRepoWritable(repo: string, lines: seq<string>, ps: seq<Playlist>)
    ensures var indexPath := [repo, FileName(Playlists)];
      var dirs: set<Path> := {[], [repo]};
      && Parent(indexPath) != [] && !BlockedIn(map[], Parent(indexPath)) && indexPath !in dirs
      && !BlockedIn(map[indexPath := lines], PlaylistsDir(repo))
      && AllTrackPathsWritable(dirs + Ancestors(Parent(indexPath)) + Ancestors(PlaylistsDir(repo)), PlaylistsDir(repo), ps, |ps|)
  {
    var indexPath := [repo, FileName(Playlists)];
    var trackDir := PlaylistsDir(repo);
    var made := {[], [repo]} + Ancestors(Parent(indexPath)) + Ancestors(trackDir);
    assert Parent(indexPath) == [repo];
    IndexLeavesPlaylistsDirFree(map[], repo, lines);
    forall q | q in made
      ensures |q| <= 2
    {
    }
    forall i | 0 <= i < |ps|
      ensures CanWriteIn(made, TrackFilePath(trackDir, ps[i]))
    {
      assert trackDir in Ancestors(trackDir);
    }
  }

  /**
   * In an existing, empty snapshots repository, writing the index and the
   * track files under `{repo}/playlists/` succeeds whenever every fetch does,
   * and the index stays in place.
   */
  lemma CorrectedLayoutSucceedsInEmptyRepo(files': map<Path, seq<string>>, playlists: Dict<string, Playlist>,
                                           fetches: Playlist -> PlaylistFetch, repo: string, r: Result<()>)
    requires playlists.Valid()
    requires PlaylistFilesOutcome({[], [repo]}, map[], files', playlists, fetches,
                                  [repo, FileName(Playlists)], PlaylistsDir(repo), r)
    requires AllFetched(LegacyTracksOfAll(playlists.Values(), fetches), playlists.Len())
    ensures r.Ok?
    ensures [repo, FileName(Playlists)] in files'
  {
    var indexPath := [repo, FileName(Playlists)];
    var lines := TsvLines(SnapshotRows(playlists, PlaylistSortKey, PlaylistToRow, PLAYLIST_HEADER_ROW));
    var ps := playlists.Values();
    EmptyRepoWritable(repo, lines, ps);
    LegacyOtherFilesKept(map[indexPath := lines], PlaylistsDir(repo), ps,
                         LegacyTrackFileContents(LegacyTracksOfAll(ps, fetches)), |ps|, indexPath);
  }

  /**
   * The older `write_playlists_to_git_repo` with the track files under
   * `{repo}/playlists/`: the same steps, and the track directory is blocked
   * only by a file that was already in the way.
   */
  method LegacyWritePlaylistsToPlaylistsDir(fs: FileSystem, first: Outcome<Playlist>, api: seq<Outcome<Playlist>>,
                                            fetches: Playlist -> PlaylistFetch, repo: string)
    returns (r: Result<()>)
    requires fs.Valid()
    modifies fs
    ensures fs.Valid()
    ensures first.TimedOut? || !PlainWalk(first.page, api, 0, false).complete ==>
      r == Err(ReadTimeout) && fs.dirs == old(fs.dirs) && fs.files == old(fs.files)
    ensures first.Fetched? && PlainWalk(first.page, api, 0, false).complete ==>
      PlaylistFilesOutcome(old(fs.dirs), old(fs.files), fs.files, ListedPlaylists(first.page, api), fetches,
                           [repo, FileName(Playlists)], PlaylistsDir(repo), r)
  {
    if first.TimedOut? {
      return Err(ReadTimeout);
    }
    var initial := first.page;
    var playlists := LegacyGetPlaylists(initial, api, false);
    if playlists.Err? {
      return Err(playlists.error);
    }
    ListedPlaylistsCollected(initial, api);
    r := LegacyWritePlaylistFiles(fs, playlists.value, fetches, [repo, FileName(Playlists)], PlaylistsDir(repo));
  }
}
