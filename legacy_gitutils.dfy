/**
 * The first package's git helpers (spotify_version_snapshots/gitutils.py):
 * the repository name and the amended commit message, built from the
 * temporary commit's per-file stats. `FILENAMES` holds `Path` objects while
 * git reports string paths; Python's `==` between a `str` and a `Path` is
 * False, so the comparisons at lines 50, 55, 67 and 79 never match. The
 * model keeps the two kinds of value apart to show it.
 */
module LegacyGitutils {
  import opened Wrappers
  import opened Text
  import opened PyDict
  import opened LegacyConstants
  import opened CommitMessage

  /** `get_repo_name`: a relative directory name either way. */
  function GetRepoName(isTestMode: bool): (name: string)
    ensures name == (if isTestMode then "TEST-REPO" else "spotify-snapshots-repo")
    ensures '/' !in name
  {
    if isTestMode then "TEST-REPO" else "spotify-snapshots-repo"
  }

  /** A Python value used as a key: a `str`, or a `pathlib.Path` with its text. `==` holds only between values of one kind. */
  datatype PyValue = PyStr(text: string) | PyPath(text: string)

  /** `FILENAMES[kind]` as the source builds it: a `Path`. */
  function AsWrittenKey(kind: SnapshotKind): PyValue
  {
    PyPath(FileName(kind))
  }

  /** The key the comparisons evidently mean: the file name as a string. */
  function CorrectedKey(kind: SnapshotKind): PyValue
  {
    PyStr(FileName(kind))
  }

  /** `FILENAMES.values()` under a choice of key. */
  function SnapshotKeys(keyOf: SnapshotKind -> PyValue): seq<PyValue>
  {
    [keyOf(Tracks), keyOf(Albums), keyOf(Playlists)]
  }

  /** `key in stats.files` followed by `stats.files[key]`: the stats keys are strings. */
  function Lookup(stats: Dict<string, FileStat>, key: PyValue): (r: Option<FileStat>)
    ensures r.Some? <==> key.PyStr? && key.text in stats.entries
  {
    if key.PyStr? && key.text in stats.entries then Some(stats.entries[key.text]) else None
  }

  /** `(playlist_additions, playlist_removals)` over the files `files` whose key is not among `skip`. */
  function PlaylistTotals(stats: Dict<string, FileStat>, files: seq<string>, skip: seq<PyValue>): (int, int)
  {
    if |files| == 0 then (0, 0)
    else
      var f := files[|files| - 1];
      var init := PlaylistTotals(stats, files[..|files| - 1], skip);
      if PyStr(f) in skip || f !in stats.entries then init
      else (init.0 + stats.entries[f].insertions, init.1 + stats.entries[f].deletions)
  }

  /** The loop at lines 49-53, skipping the files whose key is among `skip`. */
  method SumPlaylistChanges(stats: Dict<string, FileStat>, skip: seq<PyValue>) returns (additions: int, removals: int)
    requires stats.Valid()
    ensures (additions, removals) == PlaylistTotals(stats, stats.keys, skip)
  {
    additions, removals := 0, 0;
    for i := 0 to |stats.keys|
      invariant (additions, removals) == PlaylistTotals(stats, stats.keys[..i], skip)
    {
      var changedFile := stats.keys[i];
      assert stats.keys[..i + 1][..i] == stats.keys[..i];
      if PyStr(changedFile) in skip {
        continue;
      }
      additions := additions + stats.entries[changedFile].insertions;
      removals := removals + stats.entries[changedFile].deletions;
    }
    assert stats.keys[..|stats.keys|] == stats.keys;
  }

  /** Sum of insertions and of deletions over every listed file. */
  function AllTotals(stats: Dict<string, FileStat>, files: seq<string>): (int, int)
  {
    if |files| == 0 then (0, 0)
    else
      var f := files[|files| - 1];
      var init := AllTotals(stats, files[..|files| - 1]);
      if f !in stats.entries then init
      else (init.0 + stats.entries[f].insertions, init.1 + stats.entries[f].deletions)
  }

  /** As written, no string path equals a `Path`, so the loop skips nothing: the snapshot files are summed too. */
  lemma {:induction false} AsWrittenSkipsNothing(stats: Dict<string, FileStat>, files: seq<string>)
    ensures PlaylistTotals(stats, files, SnapshotKeys(AsWrittenKey)) == AllTotals(stats, files)
  {
    if |files| > 0 {
      AsWrittenSkipsNothing(stats, files[..|files| - 1]);
    }
  }

  /** With string keys, a snapshot file's stats never reach the playlist totals. */
  lemma {:induction false} CorrectedSkipsSnapshotFiles(stats: Dict<string, FileStat>, files: seq<string>, kind: SnapshotKind, s: FileStat)
    requires FileName(kind) !in stats.entries
    ensures PlaylistTotals(stats.Set(FileName(kind), s), files, SnapshotKeys(CorrectedKey))
         == PlaylistTotals(stats, files, SnapshotKeys(CorrectedKey))
  {
    if |files| > 0 {
      CorrectedSkipsSnapshotFiles(stats, files[..|files| - 1], kind, s);
    }
  }

  /** The word each snapshot file is reported under. */
  function Label(kind: SnapshotKind): string
  {
    match kind
    case Tracks => "Tracks"
    case Albums => "Albums"
    case Playlists => "Playlists"
  }

  /** One snapshot file's lines: the header-discounted count on the first commit, added and removed afterwards. */
  function KindLines(kind: SnapshotKind, s: FileStat, isFirst: bool): seq<string>
  {
    if isFirst then [Label(kind) + " In Library: " + IntToString(s.insertions - 1)]
    else ["Added " + Label(kind) + ": " + IntToString(s.insertions), "Removed " + Label(kind) + ": " + IntToString(s.deletions)]
  }

  /** The lines of one snapshot file, present only when its key is found in the stats. */
  function KindSection(stats: Dict<string, FileStat>, kind: SnapshotKind, keyOf: SnapshotKind -> PyValue, isFirst: bool): seq<string>
  {
    match Lookup(stats, keyOf(kind))
    case None => []
    case Some(s) => KindLines(kind, s, isFirst)
  }

  /** Lines 55-92: tracks, albums and the playlist index, in that order. */
  function SnapshotLines(stats: Dict<string, FileStat>, keyOf: SnapshotKind -> PyValue, isFirst: bool): seq<string>
  {
    KindSection(stats, Tracks, keyOf, isFirst) + KindSection(stats, Albums, keyOf, isFirst) + KindSection(stats, Playlists, keyOf, isFirst)
  }

  /** As written, the three sections never appear, whatever the stats. */
  lemma AsWrittenNoSections(stats: Dict<string, FileStat>, isFirst: bool)
    ensures SnapshotLines(stats, AsWrittenKey, isFirst) == []
  {
  }

  /** With string keys, each file's section appears exactly when git reports stats for it, and carries its counts. */
  lemma CorrectedSections(stats: Dict<string, FileStat>, kind: SnapshotKind, isFirst: bool)
    ensures KindSection(stats, kind, CorrectedKey, isFirst) != [] <==> FileName(kind) in stats.entries
    ensures FileName(kind) in stats.entries ==>
      KindSection(stats, kind, CorrectedKey, isFirst) == KindLines(kind, stats.entries[FileName(kind)], isFirst)
  {
  }

  /** The title: no timestamp on a first commit. */
  function LegacyTitle(parents: nat, currentTime: string): string
  {
    if parents == 0 then "Initial Spotify Snapshot" else "Spotify Snapshot - " + currentTime
  }

  /** The first commit's count of tracks in all playlists. */
  function TracksAcrossLine(n: int): string
  {
    "Tracks Across All Playlists " + IntToString(n)
  }

  /** A later commit's lines added across the playlist files. */
  function AdditionsLine(n: int): string
  {
    "Total Additions Across Playlists: " + IntToString(n)
  }

  /** A later commit's lines removed across the playlist files. */
  function RemovalsLine(n: int): string
  {
    "Total Removals Across Playlists: " + IntToString(n)
  }

  /** The closing lines: tracks across playlists on the first commit, the playlist totals afterwards. */
  function ClosingLines(additions: int, removals: int, numPlaylists: int, isFirst: bool): seq<string>
  {
    if isFirst then [TracksAcrossLine(additions - numPlaylists)]
    else [AdditionsLine(additions), RemovalsLine(removals)]
  }

  /** The title, a blank line, then the details one per line. */
  function Compose(title: string, details: seq<string>): string
  {
    title + "\n\n" + Join(details, "\n")
  }

  /**
   * `num_playlists` as written (lines 94-98): `stats.files["playlists.tsv"]`
   * is indexed directly, so a first commit without that file raises KeyError.
   */
  function NumPlaylistsAsWritten(stats: Dict<string, FileStat>): Result<int>
  {
    if PLAYLISTS_FILENAME in stats.entries then Ok(stats.entries[PLAYLISTS_FILENAME].insertions - 1)
    else Err(KeyError(PLAYLISTS_FILENAME))
  }

  /** `num_playlists` as the comment means it: 0 when the index has no stats. */
  function NumPlaylists(stats: Dict<string, FileStat>): int
  {
    if PLAYLISTS_FILENAME in stats.entries then stats.entries[PLAYLISTS_FILENAME].insertions - 1 else 0
  }

  /** The message for a choice of key and of `num_playlists` (consulted on the first commit only). */
  function LegacyMessage(parents: nat, currentTime: string, stats: Dict<string, FileStat>, keyOf: SnapshotKind -> PyValue,
                         numPlaylists: Result<int>): Result<string>
  {
    var isFirst := parents == 0;
    if isFirst && numPlaylists.Err? then Err(numPlaylists.error)
    else
      var totals := PlaylistTotals(stats, stats.keys, SnapshotKeys(keyOf));
      var closing := ClosingLines(totals.0, totals.1, if isFirst then numPlaylists.value else 0, isFirst);
      Ok(Compose(LegacyTitle(parents, currentTime), SnapshotLines(stats, keyOf, isFirst) + closing))
  }

  /** Lines 54-92: one `if` per snapshot file. */
  method AppendSnapshotLines(stats: Dict<string, FileStat>, keyOf: SnapshotKind -> PyValue, isFirst: bool) returns (details: seq<string>)
    ensures details == SnapshotLines(stats, keyOf, isFirst)
  {
    details := [];
    var trackStats := Lookup(stats, keyOf(Tracks));
    if trackStats.Some? {
      details := details + KindLines(Tracks, trackStats.value, isFirst);
    }
    assert details == KindSection(stats, Tracks, keyOf, isFirst);
    var albumStats := Lookup(stats, keyOf(Albums));
    if albumStats.Some? {
      details := details + KindLines(Albums, albumStats.value, isFirst);
    }
    assert details == KindSection(stats, Tracks, keyOf, isFirst) + KindSection(stats, Albums, keyOf, isFirst);
    var playlistStats := Lookup(stats, keyOf(Playlists));
    if playlistStats.Some? {
      details := details + KindLines(Playlists, playlistStats.value, isFirst);
    }
  }

  /** Lines 93-108: the closing lines appended to the details. */
  method AppendClosingLines(details: seq<string>, additions: int, removals: int, numPlaylists: int, isFirst: bool)
    returns (out: seq<string>)
    ensures out == details + ClosingLines(additions, removals, numPlaylists, isFirst)
  {
    if isFirst {
      out := details + [TracksAcrossLine(additions - numPlaylists)];
    } else {
      out := details + [AdditionsLine(additions), RemovalsLine(removals)];
    }
  }

  /** Only the first commit's message depends on `num_playlists`. */
  lemma LegacyMessageSameCount(parents: nat, currentTime: string, stats: Dict<string, FileStat>, keyOf: SnapshotKind -> PyValue,
                               n: Result<int>, m: Result<int>)
    requires n.Ok? && (parents == 0 ==> m == n)
    ensures LegacyMessage(parents, currentTime, stats, keyOf, n) == LegacyMessage(parents, currentTime, stats, keyOf, m)
  {
  }

  /**
   * Lines 93-112 once `num_playlists` is known: the closing lines, then the
   * title and the details joined into the message.
   */
  method ComposeLegacyMessage(parents: nat, currentTime: string, stats: Dict<string, FileStat>, keyOf: SnapshotKind -> PyValue,
                              additions: int, removals: int, details: seq<string>, numPlaylists: int)
    returns (message: string)
    requires (additions, removals) == PlaylistTotals(stats, stats.keys, SnapshotKeys(keyOf))
    requires details == SnapshotLines(stats, keyOf, parents == 0)
    ensures Ok(message) == LegacyMessage(parents, currentTime, stats, keyOf, Ok(numPlaylists))
  {
    var commitDetails := AppendClosingLines(details, additions, removals, numPlaylists, parents == 0);
    message := Compose(LegacyTitle(parents, currentTime), commitDetails);
  }

  /** `get_commit_message_for_amending` as written: `Path` keys and the unguarded index lookup. */
  method GetCommitMessageForAmending(parents: nat, currentTime: string, stats: Dict<string, FileStat>) returns (r: Result<string>)
    requires stats.Valid()
    ensures r == LegacyMessage(parents, currentTime, stats, AsWrittenKey, NumPlaylistsAsWritten(stats))
  {
    var isFirstCommit := parents == 0;
    var playlistAdditions, playlistRemovals := SumPlaylistChanges(stats, SnapshotKeys(AsWrittenKey));
    var commitDetails := AppendSnapshotLines(stats, AsWrittenKey, isFirstCommit);
    var count := NumPlaylistsAsWritten(stats);
    if isFirstCommit && count.Err? {
      return Err(count.error);
    }
    var numPlaylists := if isFirstCommit then count.value else 0;
    var message := ComposeLegacyMessage(parents, currentTime, stats, AsWrittenKey, playlistAdditions, playlistRemovals,
                                        commitDetails, numPlaylists);
    LegacyMessageSameCount(parents, currentTime, stats, AsWrittenKey, Ok(numPlaylists), NumPlaylistsAsWritten(stats));
    r := Ok(message);
  }

  /** The same message with string keys and the guarded index lookup. */
  method GetCommitMessageForAmendingFixed(parents: nat, currentTime: string, stats: Dict<string, FileStat>) returns (message: string)
    requires stats.Valid()
    ensures Ok(message) == LegacyMessage(parents, currentTime, stats, CorrectedKey, Ok(NumPlaylists(stats)))
  {
    var isFirstCommit := parents == 0;
    var playlistAdditions, playlistRemovals := SumPlaylistChanges(stats, SnapshotKeys(CorrectedKey));
    var commitDetails := AppendSnapshotLines(stats, CorrectedKey, isFirstCommit);
    var numPlaylists := if isFirstCommit then NumPlaylists(stats) else 0;
    message := ComposeLegacyMessage(parents, currentTime, stats, CorrectedKey, playlistAdditions, playlistRemovals,
                                    commitDetails, numPlaylists);
  }

  /** As written, a first commit whose stats lack the playlist index fails; the guarded lookup does not. */
  lemma FirstCommitWithoutIndex(currentTime: string, stats: Dict<string, FileStat>)
    requires PLAYLISTS_FILENAME !in stats.entries
    ensures LegacyMessage(0, currentTime, stats, AsWrittenKey, NumPlaylistsAsWritten(stats)) == Err(KeyError(PLAYLISTS_FILENAME))
    ensures LegacyMessage(0, currentTime, stats, CorrectedKey, Ok(NumPlaylists(stats))).Ok?
  {
  }

  /** Later commits never consult the index count, so both versions fail or succeed alike there. */
  lemma LaterCommitsNeverFail(parents: nat, currentTime: string, stats: Dict<string, FileStat>)
    requires parents > 0
    ensures LegacyMessage(parents, currentTime, stats, AsWrittenKey, NumPlaylistsAsWritten(stats)).Ok?
    ensures LegacyMessage(parents, currentTime, stats, CorrectedKey, Ok(NumPlaylists(stats))).Ok?
  {
  }

  /** The first commit's title carries no timestamp; later titles end with it. */
  lemma LegacyTitleShape(parents: nat, currentTime: string)
    ensures parents == 0 ==> LegacyTitle(parents, currentTime) == "Initial Spotify Snapshot"
    ensures parents > 0 ==> "Spotify Snapshot - " <= LegacyTitle(parents, currentTime)
    ensures parents > 0 ==> LegacyTitle(parents, currentTime)[19..] == currentTime
  {
  }

  /**
   * A later commit that adds ten saved tracks and nothing else: as written
   * the message has no "Added Tracks" line and counts the ten lines as
   * playlist additions; with string keys it reports them as tracks.
   */
  lemma TracksMiscountedAsPlaylists(currentTime: string)
    ensures var stats := Dict([TRACKS_FILENAME], map[TRACKS_FILENAME := FileStat(10, 0)]);
      && SnapshotLines(stats, AsWrittenKey, false) == []
      && PlaylistTotals(stats, stats.keys, SnapshotKeys(AsWrittenKey)) == (10, 0)
      && SnapshotLines(stats, CorrectedKey, false) == KindLines(Tracks, FileStat(10, 0), false)
      && PlaylistTotals(stats, stats.keys, SnapshotKeys(CorrectedKey)) == (0, 0)
  {
    var stats := Dict([TRACKS_FILENAME], map[TRACKS_FILENAME := FileStat(10, 0)]);
    assert stats.keys[..0] == [];
    assert PyStr(TRACKS_FILENAME) in SnapshotKeys(CorrectedKey);
  }
}
