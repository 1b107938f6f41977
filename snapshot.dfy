/**
 * The snapshot wrappers of spotify_snapshot/spotify.py: where a playlist's
 * track file goes (`get_playlist_file_name`), the fetch-then-write steps for
 * liked songs, saved albums and playlists, and the loop that skips empty
 * playlists. The API responses are parameters: the first request of each
 * fetch is an `Outcome` (its ReadTimeout is not retried and raises), the
 * follow-up `next` calls are a sequence of outcomes, and for the playlists
 * the responses to each playlist's track requests are given by `fetches`.
 */
module Snapshot {
  import opened Wrappers
  import opened Text
  import opened PyDict
  import opened SpotifyDatatypes
  import opened FileTree
  import opened Sorting
  import opened OutputManager
  import opened OutputFiles
  import opened Pagination

  /** The default `max_retries` of `_fetch_paginated_tracks`. */
  const MAX_RETRIES: nat := 3

  /** U+2215 DIVISION SLASH, which looks like `/` but is not a path separator. */
  const DIVISION_SLASH: char := '\U{2215}'

  /** The two kinds of argument `get_playlist_file_name` accepts: an API playlist dict or a `DeletedPlaylist`. */
  datatype PlaylistRef = ApiPlaylist(playlist: Playlist) | IndexEntry(deleted: DeletedPlaylist)

  function RefName(p: PlaylistRef): string
  {
    match p
    case ApiPlaylist(pl) => pl.name
    case IndexEntry(d) => d.name
  }

  function RefId(p: PlaylistRef): string
  {
    match p
    case ApiPlaylist(pl) => pl.id
    case IndexEntry(d) => d.id
  }

  /** `playlist_name.replace("/", "∕")`: the name can no longer split the path. */
  function EscapedName(name: string): (escaped: string)
    ensures '/' !in escaped
  {
    ReplaceRemovesChar(name, '/', [DIVISION_SLASH]);
    Replace(name, "/", [DIVISION_SLASH])
  }

  /** A name without U+2215 is recovered from its escaped form. */
  lemma EscapedNameRoundTrip(name: string)
    requires DIVISION_SLASH !in name
    ensures Replace(EscapedName(name), [DIVISION_SLASH], "/") == name
  {
    ReplaceCharRoundTrip(name, '/', DIVISION_SLASH);
  }

  /** `f"{escaped_playlist_name} ({playlist_id}).tsv"`. */
  function PlaylistBaseName(name: string, id: string): (base: string)
    ensures '/' !in base <==> '/' !in id
    ensures EscapedName(name) <= base
    ensures |base| == |EscapedName(name)| + |id| + 7
  {
    var base := EscapedName(name) + " (" + id + ").tsv";
    assert forall i :: 0 <= i < |id| ==> base[|EscapedName(name)| + 2 + i] == id[i];
    base
  }

  /** Two playlists with the same name but different ids get different track files. */
  lemma BaseNamesDistinguishIds(name: string, id1: string, id2: string)
    requires id1 != id2
    ensures PlaylistBaseName(name, id1) != PlaylistBaseName(name, id2)
  {
    var e := EscapedName(name);
    var b1, b2 := PlaylistBaseName(name, id1), PlaylistBaseName(name, id2);
    if |id1| == |id2| {
      var i :| 0 <= i < |id1| && id1[i] != id2[i];
      assert b1[|e| + 2 + i] == id1[i];
      assert b2[|e| + 2 + i] == id2[i];
    }
  }

  /**
   * `get_playlist_file_name` once the manager is known:
   * `playlists_dir_path / f"{escaped} ({id}).tsv"`, the same for a playlist
   * dict and for a `DeletedPlaylist` with its name and id.
   */
  function PlaylistFileName(m: SnapshotOutputManager, p: PlaylistRef): (path: Path)
    ensures |path| == |m.PlaylistsDirPath()| + 1 && Parent(path) == m.PlaylistsDirPath()
    ensures path[|path| - 1] == PlaylistBaseName(RefName(p), RefId(p))
  {
    m.PlaylistsDirPath() + [PlaylistBaseName(RefName(p), RefId(p))]
  }

  /** A listed playlist and the index entry read back for it name the same file. */
  lemma FileNameOfDeletedEntry(m: SnapshotOutputManager, pl: Playlist)
    ensures PlaylistFileName(m, ApiPlaylist(pl)) == PlaylistFileName(m, IndexEntry(DeletedPlaylist(pl.name, pl.id)))
  {
  }

  /** `get_playlist_file_name`: looks the manager up first, so it raises RuntimeError before `initialize`. */
  method GetPlaylistFileName(registry: ManagerRegistry, p: PlaylistRef) returns (r: Result<Path>)
    ensures r.Ok? <==> registry.instance != null
    ensures r.Ok? ==> r.value == PlaylistFileName(registry.instance, p)
    ensures r.Err? ==> r.error.RuntimeError?
  {
    var manager := registry.GetInstance();
    if manager.Err? {
      return Err(manager.error);
    }
    r := Ok(PlaylistFileName(manager.value, p));
  }

  /** The dict `_fetch_paginated_tracks` returns for the pages starting at `initial`. */
  function FetchedFrom(initial: Page<TrackItem>, api: seq<Outcome<TrackItem>>): Dict<string, TrackItem>
  {
    FetchedTracks(Items(RetryWalk(initial, api, 0, MAX_RETRIES).pages))
  }

  /** Every fetched value has a track, so both row functions accept it. */
  lemma FetchedFromRowable(initial: Page<TrackItem>, api: seq<Outcome<TrackItem>>)
    ensures var d := FetchedFrom(initial, api);
      d.Valid() && KeyedBy(d, TrackId) && AllRowable(d.Values(), TrackToRow) && AllRowable(d.Values(), PlaylistTrackToRow)
  {
    FetchedTracksStored(Items(RetryWalk(initial, api, 0, MAX_RETRIES).pages));
  }

  /** The lines of `liked_songs.tsv`: sorted by `(added_at, track name)`. */
  function LikedSongsLines(initial: Page<TrackItem>, api: seq<Outcome<TrackItem>>): seq<string>
  {
    FetchedFromRowable(initial, api);
    TsvLines(SnapshotRows(FetchedFrom(initial, api), TrackSortKey, TrackToRow, TRACK_HEADER_ROW))
  }

  /**
   * `get_liked_songs` and `get_tracks_from_playlist`: the first request
   * (`current_user_saved_tracks` or `playlist_tracks`), whose ReadTimeout
   * raises, then `_fetch_paginated_tracks` with the default retries.
   */
  method GetTracks(first: Outcome<TrackItem>, api: seq<Outcome<TrackItem>>) returns (r: Result<Dict<string, TrackItem>>)
    ensures r.Err? <==> first.TimedOut?
    ensures r.Err? ==> r.error == ReadTimeout
    ensures r.Ok? ==> r.value == FetchedFrom(first.page, api)
  {
    if first.TimedOut? {
      return Err(ReadTimeout);
    }
    var d, skipped, total := FetchPaginatedTracks(first.page, api, MAX_RETRIES);
    r := Ok(d);
  }

  /** The saved albums of a walk that did not time out, each under its album id. */
  function SavedAlbums(initial: Page<SavedAlbumItem>, api: seq<Outcome<SavedAlbumItem>>): (d: Dict<string, SavedAlbumItem>)
    ensures d.Valid()
  {
    var e: Dict<string, SavedAlbumItem> := Empty();
    var kept := Filter(Items(PlainWalk(initial, api, 0, false).pages), Always);
    InsertAllValid(e, kept, AlbumId);
    InsertAll(e, kept, AlbumId)
  }

  /** A walk that did not time out collects exactly these saved albums, each under its own key. */
  lemma SavedAlbumsCollected(initial: Page<SavedAlbumItem>, api: seq<Outcome<SavedAlbumItem>>)
    ensures KeyedBy(SavedAlbums(initial, api), AlbumId)
    ensures PlainWalk(initial, api, 0, false).complete ==>
      Collected(PlainWalk(initial, api, 0, false), AlbumId, Always, SkipMissing) == Ok(SavedAlbums(initial, api))
  {
    var e: Dict<string, SavedAlbumItem> := Empty();
    InsertAllKeyedBy(e, Filter(Items(PlainWalk(initial, api, 0, false).pages), Always), AlbumId);
  }

  /** The listed playlists of a walk that did not time out, each under its id. */
  function ListedPlaylists(initial: Page<Playlist>, api: seq<Outcome<Playlist>>): (d: Dict<string, Playlist>)
    ensures d.Valid()
  {
    var e: Dict<string, Playlist> := Empty();
    var kept := Filter(Items(PlainWalk(initial, api, 0, false).pages), Always);
    InsertAllValid(e, kept, PlaylistId);
    InsertAll(e, kept, PlaylistId)
  }

  /** A walk that did not time out collects exactly these listed playlists, each under its own key. */
  lemma ListedPlaylistsCollected(initial: Page<Playlist>, api: seq<Outcome<Playlist>>)
    ensures KeyedBy(ListedPlaylists(initial, api), PlaylistId)
    ensures PlainWalk(initial, api, 0, false).complete ==>
      Collected(PlainWalk(initial, api, 0, false), PlaylistId, Always, SkipMissing) == Ok(ListedPlaylists(initial, api))
  {
    var e: Dict<string, Playlist> := Empty();
    InsertAllKeyedBy(e, Filter(Items(PlainWalk(initial, api, 0, false).pages), Always), PlaylistId);
  }

  /**
   * `write_liked_songs_to_git_repo`: fetches the liked songs (a timeout of
   * the first request raises), then looks the manager up (RuntimeError
   * before `initialize`) and writes `liked_songs.tsv` sorted by
   * `(added_at, track name)`.
   */
  method WriteLikedSongsToGitRepo(fs: FileSystem, registry: ManagerRegistry,
                                  first: Outcome<TrackItem>, api: seq<Outcome<TrackItem>>)
    returns (r: Result<()>)
    requires fs.Valid()
    modifies fs
    ensures fs.Valid() && fs.dirs == old(fs.dirs)
    ensures first.TimedOut? ==> r == Err(ReadTimeout) && fs.files == old(fs.files)
    ensures first.Fetched? && registry.instance == null ==> r.Err? && r.error.RuntimeError? && fs.files == old(fs.files)
    ensures first.Fetched? && registry.instance != null ==>
      var path := registry.instance.LikedSongsPath();
      && (r.Ok? <==> old(fs.CanWrite(path)))
      && (r.Ok? ==> fs.files == old(fs.files)[path := LikedSongsLines(first.page, api)])
      && (r.Err? ==> fs.files == old(fs.files))
  {
    var likedSongs := GetTracks(first, api);
    if likedSongs.Err? {
      return Err(likedSongs.error);
    }
    FetchedFromRowable(first.page, api);
    var manager := registry.GetInstance();
    if manager.Err? {
      return Err(manager.error);
    }
    r := WriteToFile(fs, likedSongs.value, TrackSortKey, TrackToRow, TRACK_HEADER_ROW, manager.value.LikedSongsPath());
  }

  /**
   * `write_saved_albums_to_git_repo`: fetches the saved albums (a timeout of
   * `current_user_saved_albums` or of a `next` raises), then looks the
   * manager up and writes `saved_albums.tsv` sorted by `(added_at, album name)`.
   */
  method WriteSavedAlbumsToGitRepo(fs: FileSystem, registry: ManagerRegistry,
                                   first: Outcome<SavedAlbumItem>, api: seq<Outcome<SavedAlbumItem>>)
    returns (r: Result<()>)
    requires fs.Valid()
    modifies fs
    ensures fs.Valid() && fs.dirs == old(fs.dirs)
    ensures first.TimedOut? ==> r == Err(ReadTimeout) && fs.files == old(fs.files)
    ensures first.Fetched? && !PlainWalk(first.page, api, 0, false).complete ==> r == Err(ReadTimeout) && fs.files == old(fs.files)
    ensures first.Fetched? && PlainWalk(first.page, api, 0, false).complete && registry.instance == null ==>
      r.Err? && r.error.RuntimeError? && fs.files == old(fs.files)
    ensures first.Fetched? && PlainWalk(first.page, api, 0, false).complete && registry.instance != null ==>
      var path := registry.instance.AlbumsPath();
      var lines := TsvLines(SnapshotRows(SavedAlbums(first.page, api), AlbumSortKey, AlbumToRow, ALBUM_HEADER_ROW));
      && (r.Ok? <==> old(fs.CanWrite(path)))
      && (r.Ok? ==> fs.files == old(fs.files)[path := lines])
      && (r.Err? ==> fs.files == old(fs.files))
  {
    if first.TimedOut? {
      return Err(ReadTimeout);
    }
    var initial := first.page;
    var savedAlbums := GetSavedAlbums(initial, api);
    if savedAlbums.Err? {
      return Err(savedAlbums.error);
    }
    SavedAlbumsCollected(initial, api);
    var manager := registry.GetInstance();
    if manager.Err? {
      return Err(manager.error);
    }
    r := WriteToFile(fs, savedAlbums.value, AlbumSortKey, AlbumToRow, ALBUM_HEADER_ROW, manager.value.AlbumsPath());
  }

  /** The API responses to one playlist's track requests: the `playlist_tracks` request, then the `next` calls. */
  datatype PlaylistFetch = PlaylistFetch(first: Outcome<TrackItem>, api: seq<Outcome<TrackItem>>)

  /** The tracks fetched for one playlist; none when its first request timed out (the loop then raises). */
  function TracksOf(f: PlaylistFetch): Dict<string, TrackItem>
  {
    if f.first.Fetched? then FetchedFrom(f.first.page, f.api) else Empty()
  }

  /** `get_tracks_from_playlist` for each playlist of `ps`, in order. */
  function TracksOfAll(ps: seq<Playlist>, fetches: Playlist -> PlaylistFetch): (ts: seq<Dict<string, TrackItem>>)
    ensures |ts| == |ps|
  {
    seq(|ps|, i requires 0 <= i < |ps| => TracksOf(fetches(ps[i])))
  }

  /** `ts` holds, position by position, the tracks fetched for each playlist of `ps`. */
  ghost predicate FetchedEach(ps: seq<Playlist>, fetches: Playlist -> PlaylistFetch, ts: seq<Dict<string, TrackItem>>)
  {
    && |ts| == |ps|
    && forall j {:trigger fetches(ps[j])} :: 0 <= j < |ps| ==>
      ts[j] == TracksOf(fetches(ps[j]))
  }

  lemma TracksOfAllFetchedEach(ps: seq<Playlist>, fetches: Playlist -> PlaylistFetch)
    ensures FetchedEach(ps, fetches, TracksOfAll(ps, fetches))
  {
  }

  /**
   * The lines of a playlist's track file: sorted by `(added_at, track name)`,
   * with the ADDED BY column. Only fetched dicts reach the writer, and those
   * are always rowable (`FetchedFromRowable`).
   */
  ghost function TrackFileLines(tracks: Dict<string, TrackItem>): seq<string>
  {
    if tracks.Valid() && AllRowable(tracks.Values(), PlaylistTrackToRow) then
      TsvLines(SnapshotRows(tracks, TrackSortKey, PlaylistTrackToRow, TRACK_IN_PLAYLIST_HEADER_ROW))
    else []
  }

  /** The track file of each playlist of `ps`, in order. */
  function PlaylistPaths(m: SnapshotOutputManager, ps: seq<Playlist>): (paths: seq<Path>)
    ensures |paths| == |ps|
  {
    seq(|ps|, i requires 0 <= i < |ps| => PlaylistFileName(m, ApiPlaylist(ps[i])))
  }

  /** The content of each playlist's track file, in order. */
  ghost function TrackFileContents(ts: seq<Dict<string, TrackItem>>): (contents: seq<seq<string>>)
    ensures |contents| == |ts|
  {
    seq(|ts|, i requires 0 <= i < |ts| => TrackFileLines(ts[i]))
  }

  /** `paths` holds, position by position, the track file of each playlist of `ps`. */
  ghost predicate NamedEach(m: SnapshotOutputManager, ps: seq<Playlist>, paths: seq<Path>)
  {
    && |paths| == |ps|
    && forall j {:trigger PlaylistFileName(m, ApiPlaylist(ps[j]))} :: 0 <= j < |ps| ==>
      paths[j] == PlaylistFileName(m, ApiPlaylist(ps[j]))
  }

  lemma PlaylistPathsNamedEach(m: SnapshotOutputManager, ps: seq<Playlist>)
    ensures NamedEach(m, ps, PlaylistPaths(m, ps))
  {
  }

  /** `contents` holds, position by position, the lines of each dict's track file. */
  ghost predicate LinesOfEach(ts: seq<Dict<string, TrackItem>>, contents: seq<seq<string>>)
  {
    && |contents| == |ts|
    && forall j {:trigger TrackFileLines(ts[j])} :: 0 <= j < |ts| ==> contents[j] == TrackFileLines(ts[j])
  }

  lemma TrackFileContentsLinesOfEach(ts: seq<Dict<string, TrackItem>>)
    ensures LinesOfEach(ts, TrackFileContents(ts))
  {
  }

  /**
   * The files after the first `n` passes of the loop: `contents[i]` written
   * to `paths[i]` for each playlist with tracks, in loop order.
   */
  ghost function TrackFilesAfter(files: map<Path, seq<string>>, paths: seq<Path>, ts: seq<Dict<string, TrackItem>>,
                                 contents: seq<seq<string>>, n: nat): map<Path, seq<string>>
    requires |ts| == |paths| && |contents| == |paths| && n <= |paths|
  {
    if n == 0 then files
    else
      var before := TrackFilesAfter(files, paths, ts, contents, n - 1);
      if ts[n - 1].Len() == 0 then before else before[paths[n - 1] := contents[n - 1]]
  }

  /** The names logged as skipped in the first `n` passes: the playlists without tracks, in loop order. */
  function SkippedNames(ps: seq<Playlist>, ts: seq<Dict<string, TrackItem>>, n: nat): seq<string>
    requires |ts| == |ps| && n <= |ps|
  {
    if n == 0 then []
    else SkippedNames(ps, ts, n - 1) + (if ts[n - 1].Len() == 0 then [ps[n - 1].name] else [])
  }

  /** `total_playlists_backed_up` after `n` passes: the playlists with tracks among the first `n`. */
  function BackedUpCount(ts: seq<Dict<string, TrackItem>>, n: nat): nat
    requires n <= |ts|
  {
    if n == 0 then 0
    else BackedUpCount(ts, n - 1) + (if ts[n - 1].Len() == 0 then 0 else 1)
  }

  /** Every playlist is either backed up or skipped, never both. */
  lemma {:induction false} SkippedPlusBackedUp(ps: seq<Playlist>, ts: seq<Dict<string, TrackItem>>, n: nat)
    requires |ts| == |ps| && n <= |ps|
    ensures |SkippedNames(ps, ts, n)| + BackedUpCount(ts, n) == n
  {
    if n > 0 {
      SkippedPlusBackedUp(ps, ts, n - 1);
    }
  }

  /** Exactly the names of the playlists without tracks are skipped. */
  lemma {:induction false} SkippedNamesExactly(ps: seq<Playlist>, ts: seq<Dict<string, TrackItem>>, n: nat, name: string)
    requires |ts| == |ps| && n <= |ps|
    ensures name in SkippedNames(ps, ts, n) <==> exists i :: 0 <= i < n && ps[i].name == name && ts[i].Len() == 0
  {
    if n > 0 {
      SkippedNamesExactly(ps, ts, n - 1, name);
      if exists i :: 0 <= i < n && ps[i].name == name && ts[i].Len() == 0 {
        var i :| 0 <= i < n && ps[i].name == name && ts[i].Len() == 0;
        if i < n - 1 {
          assert name in SkippedNames(ps, ts, n - 1);
        }
      }
    }
  }

  /** A playlist with tracks whose file no later playlist with tracks reuses ends up with its rows in that file. */
  lemma {:induction false} TrackFileWritten(files: map<Path, seq<string>>, paths: seq<Path>, ts: seq<Dict<string, TrackItem>>,
                                            contents: seq<seq<string>>, n: nat, i: nat)
    requires |ts| == |paths| && |contents| == |paths| && i < n <= |paths| && ts[i].Len() > 0
    requires forall j :: i < j < n && ts[j].Len() > 0 ==> paths[j] != paths[i]
    ensures paths[i] in TrackFilesAfter(files, paths, ts, contents, n)
    ensures TrackFilesAfter(files, paths, ts, contents, n)[paths[i]] == contents[i]
  {
    if i < n - 1 {
      TrackFileWritten(files, paths, ts, contents, n - 1, i);
    }
  }

  /** A file no playlist with tracks maps to keeps its previous content (or stays absent): empty playlists get no file. */
  lemma {:induction false} OtherFilesKept(files: map<Path, seq<string>>, paths: seq<Path>, ts: seq<Dict<string, TrackItem>>,
                                          contents: seq<seq<string>>, n: nat, path: Path)
    requires |ts| == |paths| && |contents| == |paths| && n <= |paths|
    requires forall j :: 0 <= j < n && ts[j].Len() > 0 ==> paths[j] != path
    ensures path in TrackFilesAfter(files, paths, ts, contents, n) <==> path in files
    ensures path in files ==> TrackFilesAfter(files, paths, ts, contents, n)[path] == files[path]
  {
    if n > 0 {
      OtherFilesKept(files, paths, ts, contents, n - 1, path);
    }
  }

  /** Pass `i` raises nothing: the playlist's first request was answered and, when it has tracks, its file can be opened. */
  ghost predicate PassSucceeds(dirs: set<Path>, ps: seq<Playlist>, fetches: Playlist -> PlaylistFetch, paths: seq<Path>,
                               ts: seq<Dict<string, TrackItem>>, i: nat)
    requires |ts| == |ps| && |paths| == |ps| && i < |ps|
  {
    fetches(ps[i]).first.Fetched? && (ts[i].Len() > 0 ==> CanWriteIn(dirs, paths[i]))
  }

  /** None of the first `n` passes raises. */
  ghost predicate AllPassesSucceed(dirs: set<Path>, ps: seq<Playlist>, fetches: Playlist -> PlaylistFetch, paths: seq<Path>,
                                   ts: seq<Dict<string, TrackItem>>, n: nat)
    requires |ts| == |ps| && |paths| == |ps| && n <= |ps|
  {
    forall i :: 0 <= i < n ==> PassSucceeds(dirs, ps, fetches, paths, ts, i)
  }

  /**
   * The loop raised in pass `n`, the first pass that fails: the files are
   * those the earlier passes wrote, and a timed-out first request gives
   * ReadTimeout.
   */
  ghost predicate StoppedAt(dirs: set<Path>, files0: map<Path, seq<string>>, ps: seq<Playlist>, fetches: Playlist -> PlaylistFetch,
                            paths: seq<Path>, ts: seq<Dict<string, TrackItem>>, contents: seq<seq<string>>, n: nat,
                            files: map<Path, seq<string>>, r: Result<()>)
    requires |ts| == |ps| && |paths| == |ps| && |contents| == |ps|
  {
    && n < |ps|
    && AllPassesSucceed(dirs, ps, fetches, paths, ts, n)
    && !PassSucceeds(dirs, ps, fetches, paths, ts, n)
    && files == TrackFilesAfter(files0, paths, ts, contents, n)
    && (fetches(ps[n]).first.TimedOut? ==> r == Err(ReadTimeout))
  }

  /** One more pass of the loop: how its running results extend from `n` playlists to `n + 1`. */
  lemma PlaylistLoopStep(files: map<Path, seq<string>>, dirs: set<Path>, ps: seq<Playlist>, fetches: Playlist -> PlaylistFetch,
                         paths: seq<Path>, ts: seq<Dict<string, TrackItem>>, contents: seq<seq<string>>, n: nat)
    requires |ts| == |ps| && |paths| == |ps| && |contents| == |ps| && n < |ps|
    ensures TrackFilesAfter(files, paths, ts, contents, n + 1) ==
      var before := TrackFilesAfter(files, paths, ts, contents, n);
      if ts[n].Len() == 0 then before else before[paths[n] := contents[n]]
    ensures SkippedNames(ps, ts, n + 1) == SkippedNames(ps, ts, n) + (if ts[n].Len() == 0 then [ps[n].name] else [])
    ensures BackedUpCount(ts, n + 1) == BackedUpCount(ts, n) + (if ts[n].Len() == 0 then 0 else 1)
    ensures AllPassesSucceed(dirs, ps, fetches, paths, ts, n + 1) <==>
      AllPassesSucceed(dirs, ps, fetches, paths, ts, n) && PassSucceeds(dirs, ps, fetches, paths, ts, n)
  {
  }

  /** A pass that fails (a timed-out first request, or a track file that cannot be written) makes the whole loop fail. */
  lemma FailedPassFailsLoop(dirs: set<Path>, ps: seq<Playlist>, fetches: Playlist -> PlaylistFetch, paths: seq<Path>,
                            ts: seq<Dict<string, TrackItem>>, i: nat)
    requires |ts| == |ps| && |paths| == |ps| && i < |ps|
    requires !PassSucceeds(dirs, ps, fetches, paths, ts, i)
    ensures !AllPassesSucceed(dirs, ps, fetches, paths, ts, |ps|)
  {
  }

  /**
   * Pass `i` of the `for playlist in playlists.values()` loop: fetches the
   * tracks of `ps[i]` (a timeout of its first request raises) and, when
   * there are any, writes its track file.
   */
  method BackUpPlaylist(fs: FileSystem, m: SnapshotOutputManager, ps: seq<Playlist>, fetches: Playlist -> PlaylistFetch,
                        ghost ts: seq<Dict<string, TrackItem>>, ghost paths: seq<Path>, ghost contents: seq<seq<string>>,
                        i: nat)
    returns (r: Result<()>, tracks: Dict<string, TrackItem>)
    requires fs.Valid() && FetchedEach(ps, fetches, ts) && NamedEach(m, ps, paths) && LinesOfEach(ts, contents)
    requires i < |ps|
    modifies fs
    ensures fs.Valid() && fs.dirs == old(fs.dirs)
    ensures tracks == ts[i]
    ensures r.Ok? <==> PassSucceeds(old(fs.dirs), ps, fetches, paths, ts, i)
    ensures fetches(ps[i]).first.TimedOut? ==> r == Err(ReadTimeout)
    ensures r.Ok? && tracks.Len() > 0 ==> fs.files == old(fs.files)[paths[i] := contents[i]]
    ensures r.Err? || tracks.Len() == 0 ==> fs.files == old(fs.files)
  {
    var playlist := ps[i];
    var fetch := fetches(playlist);
    var fetched := GetTracks(fetch.first, fetch.api);
    if fetched.Err? {
      return Err(fetched.error), Empty();
    }
    tracks := fetched.value;
    if tracks.Len() == 0 {
      return Ok(()), tracks;
    }
    FetchedFromRowable(fetch.first.page, fetch.api);
    var playlistTracksFile := PlaylistFileName(m, ApiPlaylist(playlist));
    r := WriteToFile(fs, tracks, TrackSortKey, PlaylistTrackToRow, TRACK_IN_PLAYLIST_HEADER_ROW, playlistTracksFile);
    assert paths[i] == playlistTracksFile && contents[i] == TrackFileLines(ts[i]);
  }

  /**
   * The `for playlist in playlists.values()` loop of
   * `write_playlists_to_git_repo`: fetches each playlist's tracks, records an
   * empty one as skipped, and writes the track file of every other one. A
   * timed-out first request or a failed write raises out of the loop.
   */
  method WritePlaylistTrackFiles(fs: FileSystem, m: SnapshotOutputManager, ps: seq<Playlist>,
                                 fetches: Playlist -> PlaylistFetch, ghost ts: seq<Dict<string, TrackItem>>,
                                 ghost paths: seq<Path>, ghost contents: seq<seq<string>>)
    returns (r: Result<()>, skippedPlaylists: seq<string>, totalPlaylistsBackedUp: nat)
    requires fs.Valid() && FetchedEach(ps, fetches, ts) && NamedEach(m, ps, paths) && LinesOfEach(ts, contents)
    modifies fs
    ensures fs.Valid() && fs.dirs == old(fs.dirs)
    ensures r.Ok? <==> AllPassesSucceed(old(fs.dirs), ps, fetches, paths, ts, |ps|)
    ensures r.Ok? ==> fs.files == TrackFilesAfter(old(fs.files), paths, ts, contents, |ps|)
    ensures r.Ok? ==> skippedPlaylists == SkippedNames(ps, ts, |ps|) && totalPlaylistsBackedUp == BackedUpCount(ts, |ps|)
    ensures r.Err? ==> exists n :: StoppedAt(old(fs.dirs), old(fs.files), ps, fetches, paths, ts, contents, n, fs.files, r)
  {
    ghost var files0, dirs0 := fs.files, fs.dirs;
    skippedPlaylists := [];
    totalPlaylistsBackedUp := 0;
    var i := 0;
    while i < |ps|
      invariant 0 <= i <= |ps|
      invariant fs.Valid() && fs.dirs == dirs0
      invariant fs.files == TrackFilesAfter(files0, paths, ts, contents, i)
      invariant skippedPlaylists == SkippedNames(ps, ts, i)
      invariant totalPlaylistsBackedUp == BackedUpCount(ts, i)
      invariant AllPassesSucceed(dirs0, ps, fetches, paths, ts, i)
    {
      PlaylistLoopStep(files0, dirs0, ps, fetches, paths, ts, contents, i);
      var written, playlistTracks := BackUpPlaylist(fs, m, ps, fetches, ts, paths, contents, i);
      if written.Err? {
        FailedPassFailsLoop(dirs0, ps, fetches, paths, ts, i);
        r := Err(written.error);
        assert StoppedAt(dirs0, files0, ps, fetches, paths, ts, contents, i, fs.files, r);
        return r, skippedPlaylists, totalPlaylistsBackedUp;
      }
      if playlistTracks.Len() == 0 {
        skippedPlaylists := skippedPlaylists + [ps[i].name];
      } else {
        totalPlaylistsBackedUp := totalPlaylistsBackedUp + 1;
      }
      i := i + 1;
    }
    r := Ok(());
  }

  /**
   * The part of `write_playlists_to_git_repo` after the playlists are
   * fetched and the manager is found: writes `playlists.tsv` sorted by id,
   * then the track file of every playlist that has tracks.
   */
  method WritePlaylistFiles(fs: FileSystem, m: SnapshotOutputManager, playlists: Dict<string, Playlist>,
                            fetches: Playlist -> PlaylistFetch)
    returns (r: Result<()>, skippedPlaylists: seq<string>, totalPlaylistsBackedUp: nat)
    requires fs.Valid() && playlists.Valid()
    modifies fs
    ensures fs.Valid() && fs.dirs == old(fs.dirs)
    ensures var indexed := old(fs.files)[m.PlaylistsIndexPath() :=
        TsvLines(SnapshotRows(playlists, PlaylistSortKey, PlaylistToRow, PLAYLIST_HEADER_ROW))];
      var ps := playlists.Values();
      var ts := TracksOfAll(ps, fetches);
      var paths := PlaylistPaths(m, ps);
      && (r.Ok? <==> old(fs.CanWrite(m.PlaylistsIndexPath())) && AllPassesSucceed(old(fs.dirs), ps, fetches, paths, ts, |ps|))
      && (r.Err? && !old(fs.CanWrite(m.PlaylistsIndexPath())) ==> fs.files == old(fs.files))
      && (r.Err? && old(fs.CanWrite(m.PlaylistsIndexPath())) ==>
            exists n :: StoppedAt(old(fs.dirs), indexed, ps, fetches, paths, ts, TrackFileContents(ts), n, fs.files, r))
      && (r.Ok? ==> fs.files == TrackFilesAfter(indexed, paths, ts, TrackFileContents(ts), |ps|))
      && (r.Ok? ==> skippedPlaylists == SkippedNames(ps, ts, |ps|) && totalPlaylistsBackedUp == BackedUpCount(ts, |ps|))
  {
    skippedPlaylists, totalPlaylistsBackedUp := [], 0;
    r := WriteToFile(fs, playlists, PlaylistSortKey, PlaylistToRow, PLAYLIST_HEADER_ROW, m.PlaylistsIndexPath());
    if r.Err? {
      return;
    }
    var ps := playlists.Values();
    ghost var ts := TracksOfAll(ps, fetches);
    TracksOfAllFetchedEach(ps, fetches);
    TrackFileContentsLinesOfEach(ts);
    PlaylistPathsNamedEach(m, ps);
    r, skippedPlaylists, totalPlaylistsBackedUp :=
      WritePlaylistTrackFiles(fs, m, ps, fetches, ts, PlaylistPaths(m, ps), TrackFileContents(ts));
  }

  /**
   * `write_playlists_to_git_repo`: fetches the playlists (a timeout of
   * `current_user_playlists` or of a `next` raises), looks the manager up,
   * writes `playlists.tsv` sorted by id, then writes one track file per
   * playlist that has tracks.
   */
  method WritePlaylistsToGitRepo(fs: FileSystem, registry: ManagerRegistry, first: Outcome<Playlist>,
                                 api: seq<Outcome<Playlist>>, fetches: Playlist -> PlaylistFetch)
    returns (r: Result<()>, skippedPlaylists: seq<string>, totalPlaylistsBackedUp: nat)
    requires fs.Valid()
    modifies fs
    ensures fs.Valid() && fs.dirs == old(fs.dirs)
    ensures first.TimedOut? ==> r == Err(ReadTimeout) && fs.files == old(fs.files)
    ensures first.Fetched? && !PlainWalk(first.page, api, 0, false).complete ==> r == Err(ReadTimeout) && fs.files == old(fs.files)
    ensures first.Fetched? && PlainWalk(first.page, api, 0, false).complete && registry.instance == null ==>
      r.Err? && r.error.RuntimeError? && fs.files == old(fs.files)
    ensures first.Fetched? && PlainWalk(first.page, api, 0, false).complete && registry.instance != null ==>
      var m := registry.instance;
      var playlists := ListedPlaylists(first.page, api);
      var indexed := old(fs.files)[m.PlaylistsIndexPath() :=
        TsvLines(SnapshotRows(playlists, PlaylistSortKey, PlaylistToRow, PLAYLIST_HEADER_ROW))];
      var ps := playlists.Values();
      var ts := TracksOfAll(ps, fetches);
      var paths := PlaylistPaths(m, ps);
      && (r.Ok? <==> old(fs.CanWrite(m.PlaylistsIndexPath())) && AllPassesSucceed(old(fs.dirs), ps, fetches, paths, ts, |ps|))
      && (r.Err? && !old(fs.CanWrite(m.PlaylistsIndexPath())) ==> fs.files == old(fs.files))
      && (r.Err? && old(fs.CanWrite(m.PlaylistsIndexPath())) ==>
            exists n :: StoppedAt(old(fs.dirs), indexed, ps, fetches, paths, ts, TrackFileContents(ts), n, fs.files, r))
      && (r.Ok? ==> fs.files == TrackFilesAfter(indexed, paths, ts, TrackFileContents(ts), |ps|))
      && (r.Ok? ==> skippedPlaylists == SkippedNames(ps, ts, |ps|) && totalPlaylistsBackedUp == BackedUpCount(ts, |ps|))
  {
    skippedPlaylists, totalPlaylistsBackedUp := [], 0;
    if first.TimedOut? {
      return Err(ReadTimeout), skippedPlaylists, totalPlaylistsBackedUp;
    }
    var initial := first.page;
    var playlists := GetPlaylists(initial, api);
    if playlists.Err? {
      return Err(playlists.error), skippedPlaylists, totalPlaylistsBackedUp;
    }
    ListedPlaylistsCollected(initial, api);
    var manager := registry.GetInstance();
    if manager.Err? {
      return Err(manager.error), skippedPlaylists, totalPlaylistsBackedUp;
    }
    r, skippedPlaylists, totalPlaylistsBackedUp := WritePlaylistFiles(fs, manager.value, playlists.value, fetches);
  }
}
