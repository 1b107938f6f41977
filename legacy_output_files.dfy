/**
 * The older snapshot writer (spotify_version_snapshots/outputfileutils.py).
 * Its header rows and its track, album and playlist rows are those of
 * `OutputFiles`. Two things differ: `write_to_file` first creates the
 * output file's directory, and `playlist_track_to_row` shows the raw adder
 * id, so an empty id stays empty.
 */
module LegacyOutputFiles {
  import opened Wrappers
  import opened PyDict
  import opened Sorting
  import opened SpotifyDatatypes
  import opened FileTree
  import opened OutputFiles

  /**
   * The older `playlist_track_to_row`. It computes the `<unknown>` label for
   * an empty adder id but puts `item["added_by"]["id"]` itself into the row.
   */
  function LegacyPlaylistTrackToRow(item: TrackItem): (r: seq<string>)
    requires item.track.Some?
    ensures |r| == |TRACK_IN_PLAYLIST_HEADER_ROW|
    ensures r[..4] == TrackToRow(item)[..4] && r[5] == TrackToRow(item)[4]
    ensures r[4] == item.addedBy.id
  {
    var addedById := AddedByLabel(item.addedBy.id);
    InsertBeforeLast(TrackToRow(item), item.addedBy.id)
  }

  /** The two versions agree except on the adder column of an item whose adder id is empty. */
  lemma LegacyRowDiffersOnlyOnEmptyAdder(item: TrackItem)
    requires item.track.Some?
    ensures LegacyPlaylistTrackToRow(item) == PlaylistTrackToRow(item) <==> item.addedBy.id != ""
    ensures item.addedBy.id == "" ==>
      LegacyPlaylistTrackToRow(item)[4] == "" && PlaylistTrackToRow(item)[4] == "<unknown>"
  {
    var legacy, current := LegacyPlaylistTrackToRow(item), PlaylistTrackToRow(item);
    assert current[4] == TrackColumn(item, TRACK_IN_PLAYLIST_HEADER_ROW[4]);
    if item.addedBy.id != "" {
      assert forall c :: 0 <= c < 6 ==> legacy[c] == current[c] by {
        assert legacy[..4] == current[..4];
        assert forall c :: 0 <= c < 4 ==> legacy[c] == legacy[..4][c] && current[c] == current[..4][c];
      }
    } else {
      assert legacy[4] != current[4];
    }
  }

  /** A concrete playlist item from an official playlist, whose adder id is empty. */
  lemma LegacyEmptyAdderExample()
    ensures var item := TrackItem(Some(Track(Album("A", "a1", []), [], "T", "t1")), AddedBy(""), "2024-01-01");
      LegacyPlaylistTrackToRow(item) == ["T", "", "A", "2024-01-01", "", "t1"]
      && PlaylistTrackToRow(item)[4] == "<unknown>"
  {
    var item := TrackItem(Some(Track(Album("A", "a1", []), [], "T", "t1")), AddedBy(""), "2024-01-01");
    assert ArtistNames([]) == "";
    LegacyRowDiffersOnlyOnEmptyAdder(item);
  }

  /**
   * What the older `write_to_file` leaves behind, from directories `dirs` and
   * files `files` to `dirs'` and `files'`: `os.makedirs(os.path.dirname(p),
   * exist_ok=True)` first (FileNotFoundError for the empty dirname of a bare
   * file name, FileExistsError when the directory is a regular file,
   * NotADirectoryError when one of its prefixes is), then the
   * write of `lines` to `p`, which fails when `p` is a directory.
   */
  predicate LegacyWriteOutcome(dirs: set<Path>, files: map<Path, seq<string>>,
                               dirs': set<Path>, files': map<Path, seq<string>>,
                               p: Path, lines: seq<string>, r: Result<()>)
  {
    var dir := Parent(p);
    && (r.Ok? <==> dir != [] && !BlockedIn(files, dir) && p !in dirs)
    && (dir == [] ==> r == Err(FileNotFoundError([])) && dirs' == dirs)
    && (dir != [] && BlockedIn(files, dir) ==> r == Err(MakeDirsError(files, dir)) && dirs' == dirs)
    && (dir != [] && !BlockedIn(files, dir) ==> dirs' == dirs + Ancestors(dir))
    && (r.Ok? ==> files' == files[p := lines])
    && (r.Err? ==> files' == files)
  }

  /**
   * The older `write_to_file`: makes the output file's directory, then sorts
   * the values and writes the header and one row per value, appended in a
   * loop: the same lines as `OutputFiles.WriteToFile`.
   */
  method LegacyWriteToFile<T>(fs: FileSystem, data: Dict<string, T>, sortKey: T -> SortKey,
                              toRow: T --> seq<string>, header: seq<string>, outputFilename: Path)
    returns (r: Result<()>)
    requires fs.Valid() && data.Valid() && AllRowable(data.Values(), toRow)
    modifies fs
    ensures fs.Valid()
    ensures LegacyWriteOutcome(old(fs.dirs), old(fs.files), fs.dirs, fs.files, outputFilename,
                               TsvLines(SnapshotRows(data, sortKey, toRow, header)), r)
  {
    var dir := Parent(outputFilename);
    if dir == [] {
      return Err(FileNotFoundError(dir));
    }
    r := fs.MakeDirs(dir);
    if r.Err? {
      return;
    }
    assert outputFilename in fs.dirs <==> outputFilename in old(fs.dirs) by {
      assert forall q :: q in Ancestors(dir) ==> |q| < |outputFilename|;
    }
    var sortedList := StableSort(data.Values(), sortKey);
    PermutationRowable(data.Values(), sortedList, toRow);
    var outputRows := AppendRows(header, sortedList, toRow);
    r := fs.WriteLines(outputFilename, TsvLines(outputRows));
  }
}
