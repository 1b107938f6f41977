/**
 * The snapshot files (spotify_snapshot/outputfileutils.py): header rows, the
 * row each record becomes, and `write_to_file`, which writes the header and
 * then one row per value of a dict, in ascending sort-key order. A file is
 * the list of its lines; a line is its fields joined by tabs.
 */
module OutputFiles {
  import opened Wrappers
  import opened Text
  import opened PyDict
  import opened Sorting
  import opened SpotifyDatatypes
  import opened FileTree

  const TRACK_HEADER_ROW: seq<string> := ["TRACK NAME", "TRACK ARTIST(S)", "ALBUM", "DATE ADDED", "TRACK ID"]
  const ALBUM_HEADER_ROW: seq<string> := ["ALBUM NAME", "ALBUM ARTIST(S)", "DATE ADDED", "ALBUM ID"]
  const PLAYLIST_HEADER_ROW: seq<string> :=
    ["PLAYLIST NAME", "PLAYLIST DESCRIPTION", "LENGTH", "OWNER", "COLLABORATIVE", "PLAYLIST ID"]
  const TRACK_IN_PLAYLIST_HEADER_ROW: seq<string> := InsertBeforeLast(TRACK_HEADER_ROW, "ADDED BY")

  /** `[*row[:-1], field, *row[-1:]]`: `field` goes in just before the last column. */
  function InsertBeforeLast(row: seq<string>, field: string): (r: seq<string>)
    requires |row| >= 1
    ensures |r| == |row| + 1
    ensures r[..|row| - 1] == row[..|row| - 1]
    ensures r[|row| - 1] == field && r[|row|] == row[|row| - 1]
  {
    row[..|row| - 1] + [field] + row[|row| - 1..]
  }

  /** `", ".join(artist["name"] for artist in artists)`. */
  function ArtistNames(artists: seq<Artist>): string
  {
    Join(seq(|artists|, i requires 0 <= i < |artists| => artists[i].name), ", ")
  }

  /** What a playlist track row shows as its adder: the user id, or `<unknown>` when the API left it empty. */
  function AddedByLabel(id: string): (shown: string)
    ensures id == "" ==> shown == "<unknown>"
    ensures id != "" ==> shown == id
  {
    if id == "" then "<unknown>" else id
  }

  /** The value a track item shows under each track column heading. */
  function TrackColumn(item: TrackItem, column: string): string
    requires item.track.Some?
  {
    var t := item.track.value;
    if column == "TRACK NAME" then t.name
    else if column == "TRACK ARTIST(S)" then ArtistNames(t.artists)
    else if column == "ALBUM" then t.album.name
    else if column == "DATE ADDED" then item.addedAt
    else if column == "ADDED BY" then AddedByLabel(item.addedBy.id)
    else if column == "TRACK ID" then t.id
    else ""
  }

  /** The value a saved album shows under each album column heading. */
  function AlbumColumn(item: SavedAlbumItem, column: string): string
  {
    if column == "ALBUM NAME" then item.album.name
    else if column == "ALBUM ARTIST(S)" then ArtistNames(item.album.artists)
    else if column == "DATE ADDED" then item.addedAt
    else if column == "ALBUM ID" then item.album.id
    else ""
  }

  /** The value a playlist shows under each index column heading, as `csv.writer` prints it. */
  function PlaylistColumn(p: Playlist, column: string): string
  {
    if column == "PLAYLIST NAME" then p.name
    else if column == "PLAYLIST DESCRIPTION" then p.description
    else if column == "LENGTH" then IntToString(p.tracks.total)
    else if column == "OWNER" then p.owner.id
    else if column == "COLLABORATIVE" then BoolToString(p.collaborative)
    else if column == "PLAYLIST ID" then p.id
    else ""
  }

  /** `track_to_row`: one value per track column, each under its heading. */
  function TrackToRow(item: TrackItem): (r: seq<string>)
    requires item.track.Some?
    ensures |r| == |TRACK_HEADER_ROW|
    ensures forall c :: 0 <= c < |r| ==> r[c] == TrackColumn(item, TRACK_HEADER_ROW[c])
  {
    var t := item.track.value;
    [t.name, ArtistNames(t.artists), t.album.name, item.addedAt, t.id]
  }

  /**
   * `playlist_track_to_row`: the track row with the adder inserted before the
   * last column, so each value again sits under its heading.
   */
  function PlaylistTrackToRow(item: TrackItem): (r: seq<string>)
    requires item.track.Some?
    ensures |r| == |TRACK_IN_PLAYLIST_HEADER_ROW|
    ensures forall c :: 0 <= c < |r| ==> r[c] == TrackColumn(item, TRACK_IN_PLAYLIST_HEADER_ROW[c])
    ensures r[..4] == TrackToRow(item)[..4] && r[5] == TrackToRow(item)[4]
  {
    InsertBeforeLast(TrackToRow(item), AddedByLabel(item.addedBy.id))
  }

  /** `album_to_row`: one value per album column, each under its heading. */
  function AlbumToRow(item: SavedAlbumItem): (r: seq<string>)
    ensures |r| == |ALBUM_HEADER_ROW|
    ensures forall c :: 0 <= c < |r| ==> r[c] == AlbumColumn(item, ALBUM_HEADER_ROW[c])
  {
    [item.album.name, ArtistNames(item.album.artists), item.addedAt, item.album.id]
  }

  /** `playlist_to_row`: one value per index column; the name comes first and the id last. */
  function PlaylistToRow(p: Playlist): (r: seq<string>)
    ensures |r| == |PLAYLIST_HEADER_ROW|
    ensures forall c :: 0 <= c < |r| ==> r[c] == PlaylistColumn(p, PLAYLIST_HEADER_ROW[c])
    ensures r[0] == p.name && r[|r| - 1] == p.id
  {
    [p.name, p.description, IntToString(p.tracks.total), p.owner.id, BoolToString(p.collaborative), p.id]
  }

  /** `item["track"]["name"]`, read only for items whose track is present. */
  function TrackName(item: TrackItem): string
  {
    if item.track.Some? then item.track.value.name else ""
  }

  /** Sort key of liked songs and playlist tracks: `(added_at, track name)`. */
  function TrackSortKey(item: TrackItem): SortKey
  {
    [item.addedAt, TrackName(item)]
  }

  /** Sort key of saved albums: `(added_at, album name)`. */
  function AlbumSortKey(item: SavedAlbumItem): SortKey
  {
    [item.addedAt, item.album.name]
  }

  /** Sort key of the playlist index: the id string, as a one-element key. */
  function PlaylistSortKey(p: Playlist): SortKey
  {
    [p.id]
  }

  /** A one-element key orders exactly as the bare string, so the index is ordered by `id` as Python orders strings. */
  lemma SingletonKeyOrder(a: string, b: string)
    ensures KeyLt([a], [b]) <==> StrLt(a, b)
  {
    assert [a][1..] == [] && [b][1..] == [];
  }

  /** Every value can be turned into a row. */
  ghost predicate AllRowable<T>(values: seq<T>, toRow: T --> seq<string>)
  {
    forall i :: 0 <= i < |values| ==> toRow.requires(values[i])
  }

  /** Where a value of a permutation of `a` sits in `a`. */
  lemma PermutationIndex<T>(a: seq<T>, b: seq<T>, j: nat) returns (i: nat)
    requires multiset(a) == multiset(b) && j < |b|
    ensures i < |a| && a[i] == b[j]
  {
    assert b[j] in multiset(a);
    i :| 0 <= i < |a| && a[i] == b[j];
  }

  lemma PermutationRowable<T>(a: seq<T>, b: seq<T>, toRow: T --> seq<string>)
    requires multiset(a) == multiset(b) && AllRowable(a, toRow)
    ensures AllRowable(b, toRow)
  {
    forall j | 0 <= j < |b|
      ensures toRow.requires(b[j])
    {
      var i := PermutationIndex(a, b, j);
    }
  }

  /** `[item_to_row(item) for item in items]`. */
  function Rows<T>(items: seq<T>, toRow: T --> seq<string>): (rows: seq<seq<string>>)
    requires AllRowable(items, toRow)
    ensures |rows| == |items|
    ensures forall i :: 0 <= i < |items| ==> rows[i] == toRow(items[i])
  {
    seq(|items|, i requires 0 <= i < |items| => toRow(items[i]))
  }

  /** The rows `write_to_file` writes: the header, then the values of `data` sorted by `sort_lambda`. */
  function SnapshotRows<T>(data: Dict<string, T>, sortKey: T -> SortKey, toRow: T --> seq<string>, header: seq<string>): (rows: seq<seq<string>>)
    requires data.Valid() && AllRowable(data.Values(), toRow)
    ensures |rows| == data.Len() + 1 && rows[0] == header
  {
    var sorted := StableSort(data.Values(), sortKey);
    PermutationRowable(data.Values(), sorted, toRow);
    [header] + Rows(sorted, toRow)
  }

  /** A row's line in the file: its fields joined by tabs (`csv.writer` with a tab delimiter, quoting aside). */
  function TsvLine(row: seq<string>): string
  {
    Join(row, "\t")
  }

  function TsvLines(rows: seq<seq<string>>): (lines: seq<string>)
    ensures |lines| == |rows|
    ensures forall i :: 0 <= i < |rows| ==> lines[i] == TsvLine(rows[i])
  {
    seq(|rows|, i requires 0 <= i < |rows| => TsvLine(rows[i]))
  }

  /**
   * The data rows are the rows of an ordering of the dict's values that is
   * ascending by key, holds each value as often as the dict does, and keeps
   * values with equal keys in dict order: exactly what a stable sort gives.
   */
  lemma SnapshotRowsOrder<T>(data: Dict<string, T>, sortKey: T -> SortKey, toRow: T --> seq<string>, header: seq<string>)
    requires data.Valid() && AllRowable(data.Values(), toRow)
    ensures var rows := SnapshotRows(data, sortKey, toRow, header);
      exists order: seq<T> ::
        && SortedBy(order, sortKey)
        && multiset(order) == multiset(data.Values())
        && (forall k :: KeyFilter(order, sortKey, k) == KeyFilter(data.Values(), sortKey, k))
        && AllRowable(order, toRow)
        && rows[1..] == Rows(order, toRow)
  {
    var order := StableSort(data.Values(), sortKey);
    StableSortSorted(data.Values(), sortKey);
    forall k {
      StableSortStable(data.Values(), sortKey, k);
    }
    PermutationRowable(data.Values(), order, toRow);
    var rows := SnapshotRows(data, sortKey, toRow, header);
    assert rows[1..] == Rows(order, toRow);
  }

  /** When every row has as many fields as the header, so does every line of the file. */
  lemma SnapshotRowsWidth<T>(data: Dict<string, T>, sortKey: T -> SortKey, toRow: T --> seq<string>, header: seq<string>)
    requires data.Valid() && AllRowable(data.Values(), toRow)
    requires forall i :: 0 <= i < |data.keys| ==> |toRow(data.entries[data.keys[i]])| == |header|
    ensures forall r :: r in SnapshotRows(data, sortKey, toRow, header) ==> |r| == |header|
  {
    var values := data.Values();
    var sorted := StableSort(values, sortKey);
    var rows := SnapshotRows(data, sortKey, toRow, header);
    PermutationRowable(values, sorted, toRow);
    forall j | 0 <= j < |rows|
      ensures |rows[j]| == |header|
    {
      if j > 0 {
        var i := PermutationIndex(values, sorted, j - 1);
        assert rows[j] == toRow(values[i]);
      }
    }
    forall r | r in rows
      ensures |r| == |header|
    {
      var j :| 0 <= j < |rows| && rows[j] == r;
    }
  }

  /**
   * The `for item in sorted_list: output_rows.append(item_to_row_lambda(item))`
   * loop of the older `write_to_file`s: the header, then one row per value.
   */
  method AppendRows<T>(header: seq<string>, sortedList: seq<T>, toRow: T --> seq<string>)
    returns (outputRows: seq<seq<string>>)
    requires AllRowable(sortedList, toRow)
    ensures outputRows == [header] + Rows(sortedList, toRow)
  {
    outputRows := [header];
    for i := 0 to |sortedList|
      invariant outputRows == [header] + Rows(sortedList[..i], toRow)
    {
      assert sortedList[..i + 1] == sortedList[..i] + [sortedList[i]];
      outputRows := outputRows + [toRow(sortedList[i])];
    }
    assert sortedList[..|sortedList|] == sortedList;
  }

  /**
   * `write_to_file`: sorts the values, builds the header row followed by one
   * row per value, and overwrites `output_filename` with them. The parent
   * directory is not created here (despite the docstring): the open fails
   * when it is missing.
   */
  method WriteToFile<T>(fs: FileSystem, data: Dict<string, T>, sortKey: T -> SortKey,
                        toRow: T --> seq<string>, header: seq<string>, outputFilename: Path)
    returns (r: Result<()>)
    requires fs.Valid() && data.Valid() && AllRowable(data.Values(), toRow)
    modifies fs
    ensures fs.Valid() && fs.dirs == old(fs.dirs)
    ensures r.Ok? <==> old(fs.CanWrite(outputFilename))
    ensures r.Ok? ==> fs.files == old(fs.files)[outputFilename := TsvLines(SnapshotRows(data, sortKey, toRow, header))]
    ensures r.Err? ==> fs.files == old(fs.files)
  {
    var sortedList := StableSort(data.Values(), sortKey);
    PermutationRowable(data.Values(), sortedList, toRow);
    var outputRows := [header] + Rows(sortedList, toRow);
    r := fs.WriteLines(outputFilename, TsvLines(outputRows));
  }
}
