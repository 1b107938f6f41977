/**
 * Deletion reconciliation (spotify_snapshot/gitutils.py): the playlists that
 * left the index since the last commit are found by comparing the committed
 * index with the one just written, line by line, and their track files are
 * then removed from the working tree.
 */
module Reconcile {
  import opened Wrappers
  import opened Text
  import opened SpotifyDatatypes
  import opened FileTree
  import opened OutputManager
  import opened OutputFiles
  import opened Snapshot
  import opened GitRepos

  /**
   * One item of `repo.head.commit.diff(None)`, the committed tree against the
   * working tree: the committed path and, when that side has a blob, the
   * lines of the committed file.
   */
  datatype WorktreeDiff = WorktreeDiff(aPath: string, aBlob: Option<seq<string>>)

  /** Reading `diff_item.a_blob.data_stream` of an item without a committed blob. */
  const NO_BLOB: PyError := AttributeError("'NoneType' object has no attribute 'data_stream'")

  /** `[line for line in old_content if line not in new_content]`. */
  function DeletedLines(oldContent: seq<string>, newContent: seq<string>): (deleted: seq<string>)
    ensures |deleted| <= |oldContent|
  {
    if |oldContent| == 0 then []
    else
      var line := oldContent[|oldContent| - 1];
      var init := DeletedLines(oldContent[..|oldContent| - 1], newContent);
      if line in newContent then init else init + [line]
  }

  /** A line is reported exactly when it was in the old file and is not in the new one. */
  lemma {:induction false} DeletedLinesMembers(oldContent: seq<string>, newContent: seq<string>, line: string)
    ensures line in DeletedLines(oldContent, newContent) <==> line in oldContent && line !in newContent
  {
    if |oldContent| > 0 {
      var init := oldContent[..|oldContent| - 1];
      DeletedLinesMembers(init, newContent, line);
      assert oldContent == init + [oldContent[|oldContent| - 1]];
    }
  }

  /** The difference keeps the old file's order: it distributes over concatenation. */
  lemma {:induction false} DeletedLinesAppend(a: seq<string>, b: seq<string>, newContent: seq<string>)
    ensures DeletedLines(a + b, newContent) == DeletedLines(a, newContent) + DeletedLines(b, newContent)
    decreases |b|
  {
    if |b| > 0 {
      var init := b[..|b| - 1];
      DeletedLinesAppend(a, init, newContent);
      assert (a + b)[..|a + b| - 1] == a + init;
    } else {
      assert a + b == a;
    }
  }

  /** `DeletedPlaylist(name=line.split("\t")[0], id=line.split("\t")[-1])`. */
  function EntryOf(line: string): DeletedPlaylist
  {
    DeletedPlaylist(FirstField(line, '\t'), LastField(line, '\t'))
  }

  /** The entries the loop over the deleted lines builds: one per non-blank line, in order. */
  function DeletedEntries(lines: seq<string>): (entries: seq<DeletedPlaylist>)
    ensures |entries| <= |lines|
  {
    if |lines| == 0 then []
    else
      var line := lines[|lines| - 1];
      var init := DeletedEntries(lines[..|lines| - 1]);
      if IsBlank(line) then init else init + [EntryOf(line)]
  }

  /** Every entry comes from a non-blank line, and every non-blank line gives one. */
  lemma {:induction false} DeletedEntriesFromLines(lines: seq<string>)
    ensures forall e :: e in DeletedEntries(lines) ==> exists i :: 0 <= i < |lines| && !IsBlank(lines[i]) && e == EntryOf(lines[i])
    ensures forall i :: 0 <= i < |lines| && !IsBlank(lines[i]) ==> EntryOf(lines[i]) in DeletedEntries(lines)
  {
    if |lines| > 0 {
      var init := lines[..|lines| - 1];
      DeletedEntriesFromLines(init);
      forall e | e in DeletedEntries(lines)
        ensures exists i :: 0 <= i < |lines| && !IsBlank(lines[i]) && e == EntryOf(lines[i])
      {
        if e in DeletedEntries(init) {
          var i :| 0 <= i < |init| && !IsBlank(init[i]) && e == EntryOf(init[i]);
          assert lines[i] == init[i];
        }
      }
      forall i | 0 <= i < |lines| && !IsBlank(lines[i])
        ensures EntryOf(lines[i]) in DeletedEntries(lines)
      {
        if i < |init| {
          assert lines[i] == init[i];
        }
      }
    }
  }

  lemma {:induction false} DeletedEntriesAppend(a: seq<string>, b: seq<string>)
    ensures DeletedEntries(a + b) == DeletedEntries(a) + DeletedEntries(b)
    decreases |b|
  {
    if |b| > 0 {
      var init := b[..|b| - 1];
      DeletedEntriesAppend(a, init);
      assert (a + b)[..|a + b| - 1] == a + init;
    } else {
      assert a + b == a;
    }
  }

  /** The loop over `deleted_lines` that skips blank lines and appends a `DeletedPlaylist` for each other line. */
  method ParseDeletedLines(deletedLines: seq<string>) returns (deletedPlaylists: seq<DeletedPlaylist>)
    ensures deletedPlaylists == DeletedEntries(deletedLines)
  {
    deletedPlaylists := [];
    for i := 0 to |deletedLines|
      invariant deletedPlaylists == DeletedEntries(deletedLines[..i])
    {
      assert deletedLines[..i + 1][..i] == deletedLines[..i];
      if IsBlank(deletedLines[i]) {
        continue;
      }
      deletedPlaylists := deletedPlaylists + [EntryOf(deletedLines[i])];
    }
    assert deletedLines[..|deletedLines|] == deletedLines;
  }

  /**
   * What the loop over the diff leaves in `deleted_lines`, given what reading
   * the new index gives: every item whose path contains `playlists.tsv`
   * replaces it with the difference of that item's committed lines and the
   * new index; the first failing read raises.
   */
  function IndexDiffLines(diff: seq<WorktreeDiff>, newContent: Result<seq<string>>): Result<seq<string>>
  {
    if |diff| == 0 then Ok([])
    else
      var item := diff[|diff| - 1];
      var init := IndexDiffLines(diff[..|diff| - 1], newContent);
      if init.Err? || !Contains(item.aPath, PLAYLISTS_INDEX_FILENAME) then init
      else if item.aBlob.None? then Err(NO_BLOB)
      else if newContent.Err? then newContent
      else Ok(DeletedLines(item.aBlob.value, newContent.value))
  }

  /** Once the loop has raised, later items change nothing. */
  lemma {:induction false} IndexDiffLinesErr(diff: seq<WorktreeDiff>, newContent: Result<seq<string>>, k: nat)
    requires k <= |diff| && IndexDiffLines(diff[..k], newContent).Err?
    ensures IndexDiffLines(diff, newContent) == IndexDiffLines(diff[..k], newContent)
    decreases |diff| - k
  {
    if k < |diff| {
      assert diff[..k + 1][..k] == diff[..k];
      IndexDiffLinesErr(diff, newContent, k + 1);
    } else {
      assert diff[..k] == diff;
    }
  }

  /** Without an item for the index, nothing is reported as deleted. */
  lemma {:induction false} IndexDiffLinesUntouched(diff: seq<WorktreeDiff>, newContent: Result<seq<string>>)
    requires forall i :: 0 <= i < |diff| ==> !Contains(diff[i].aPath, PLAYLISTS_INDEX_FILENAME)
    ensures IndexDiffLines(diff, newContent) == Ok([])
  {
    if |diff| > 0 {
      IndexDiffLinesUntouched(diff[..|diff| - 1], newContent);
    }
  }

  /**
   * `get_deleted_playlists` for a registered manager `m` (none: RuntimeError),
   * a working tree with directories `dirs` and files `files`, and the diff
   * of HEAD against it.
   */
  function DeletedPlaylistsOf(m: SnapshotOutputManager?, dirs: set<Path>, files: map<Path, seq<string>>,
                              diff: seq<WorktreeDiff>): Result<seq<DeletedPlaylist>>
  {
    if m == null then Err(NOT_INITIALIZED)
    else
      var lines := IndexDiffLines(diff, ReadIn(dirs, files, m.PlaylistsIndexPath()));
      if lines.Err? then Err(lines.error) else Ok(DeletedEntries(lines.value))
  }

  /** `get_deleted_playlists`: it reads the registry, the diff and the index file and changes nothing. */
  method GetDeletedPlaylists(registry: ManagerRegistry, fs: FileSystem, diff: seq<WorktreeDiff>)
    returns (r: Result<seq<DeletedPlaylist>>)
    ensures r == DeletedPlaylistsOf(registry.instance, fs.dirs, fs.files, diff)
  {
    var manager := registry.GetInstance();
    if manager.Err? {
      return Err(manager.error);
    }
    var m := manager.value;
    ghost var newContent := ReadIn(fs.dirs, fs.files, m.PlaylistsIndexPath());
    var deletedLines := [];
    for i := 0 to |diff|
      invariant IndexDiffLines(diff[..i], newContent) == Ok(deletedLines)
    {
      assert diff[..i + 1][..i] == diff[..i];
      if Contains(diff[i].aPath, PLAYLISTS_INDEX_FILENAME) {
        if diff[i].aBlob.None? {
          IndexDiffLinesErr(diff, newContent, i + 1);
          return Err(NO_BLOB);
        }
        var oldContent := diff[i].aBlob.value;
        var read := ReadIn(fs.dirs, fs.files, m.PlaylistsIndexPath());
        if read.Err? {
          IndexDiffLinesErr(diff, newContent, i + 1);
          return Err(read.error);
        }
        deletedLines := DeletedLines(oldContent, read.value);
      }
    }
    assert diff[..|diff|] == diff;
    var deletedPlaylists := ParseDeletedLines(deletedLines);
    r := Ok(deletedPlaylists);
  }

  /** An index row's fields hold no tab as long as the name, description, owner and id hold none. */
  predicate TabFree(p: Playlist)
  {
    '\t' !in p.name && '\t' !in p.description && '\t' !in p.owner.id && '\t' !in p.id
  }

  /** The line a playlist gets in the index file. */
  function IndexLine(p: Playlist): string
  {
    TsvLine(PlaylistToRow(p))
  }

  /** The fields of an index row hold no tab: LENGTH is a numeral and COLLABORATIVE a bool. */
  lemma IndexRowTabFree(p: Playlist)
    requires TabFree(p)
    ensures forall i :: 0 <= i < |PlaylistToRow(p)| ==> '\t' !in PlaylistToRow(p)[i]
  {
    var total := p.tracks.total;
    var digits := NatToString(if total < 0 then -total else total);
    forall i | 0 <= i < |digits|
      ensures digits[i] != '\t'
    {
    }
    assert IntToString(total) == digits || IntToString(total) == "-" + digits;
  }

  /** Splitting an index line at tabs gives back its row. */
  lemma IndexRowsSplit(p: Playlist)
    requires TabFree(p)
    ensures Split(IndexLine(p), '\t') == PlaylistToRow(p)
  {
    IndexRowTabFree(p);
    SplitJoin(PlaylistToRow(p), '\t');
  }

  /** An index line is never blank: its LENGTH column starts with a digit or a sign. */
  lemma IndexLineNotBlank(p: Playlist)
    ensures !IsBlank(IndexLine(p))
  {
    var row := PlaylistToRow(p);
    var length := IntToString(p.tracks.total);
    var prefix := p.name + "\t" + p.description + "\t";
    assert row[1..][1..] == row[2..];
    assert Join(row, "\t") == p.name + "\t" + Join(row[1..], "\t");
    assert Join(row[1..], "\t") == p.description + "\t" + Join(row[2..], "\t");
    assert Join(row[2..], "\t") == length + "\t" + Join(row[3..], "\t");
    assert IndexLine(p) == prefix + (length + "\t" + Join(row[3..], "\t"));
    assert IndexLine(p)[|prefix|] == length[0];
  }

  /** Reading an index line back gives the playlist's name and id, and the line is not skipped as blank. */
  lemma IndexLineRoundTrip(p: Playlist)
    requires TabFree(p)
    ensures EntryOf(IndexLine(p)) == DeletedPlaylist(p.name, p.id)
    ensures !IsBlank(IndexLine(p))
  {
    IndexRowsSplit(p);
    IndexLineNotBlank(p);
  }

  /** The index lines of `ps`, in order. */
  function IndexLines(ps: seq<Playlist>): (lines: seq<string>)
    ensures |lines| == |ps|
  {
    if |ps| == 0 then [] else IndexLines(ps[..|ps| - 1]) + [IndexLine(ps[|ps| - 1])]
  }

  /** The playlists of `ps`, in order, whose index line no longer appears in `newContent`. */
  function GoneEntries(ps: seq<Playlist>, newContent: seq<string>): seq<DeletedPlaylist>
  {
    if |ps| == 0 then []
    else
      var p := ps[|ps| - 1];
      var init := GoneEntries(ps[..|ps| - 1], newContent);
      if IndexLine(p) in newContent then init else init + [DeletedPlaylist(p.name, p.id)]
  }

  /**
   * Reconciliation reports, for an old index listing `ps` below its header,
   * exactly the playlists whose line is gone from the new index, by name and
   * id, in index order, as long as the header is still there.
   */
  lemma {:induction false} DeletedEntriesOfIndex(ps: seq<Playlist>, newContent: seq<string>)
    requires forall i :: 0 <= i < |ps| ==> TabFree(ps[i])
    requires TsvLine(PLAYLIST_HEADER_ROW) in newContent
    ensures DeletedEntries(DeletedLines([TsvLine(PLAYLIST_HEADER_ROW)] + IndexLines(ps), newContent)) == GoneEntries(ps, newContent)
  {
    var header := [TsvLine(PLAYLIST_HEADER_ROW)];
    DeletedLinesAppend(header, IndexLines(ps), newContent);
    assert DeletedLines(header, newContent) == [];
    assert [] + DeletedLines(IndexLines(ps), newContent) == DeletedLines(IndexLines(ps), newContent);
    RowsDeletedEntries(ps, newContent);
  }

  lemma {:induction false} RowsDeletedEntries(ps: seq<Playlist>, newContent: seq<string>)
    requires forall i :: 0 <= i < |ps| ==> TabFree(ps[i])
    ensures DeletedEntries(DeletedLines(IndexLines(ps), newContent)) == GoneEntries(ps, newContent)
  {
    if |ps| > 0 {
      var p := ps[|ps| - 1];
      var init := ps[..|ps| - 1];
      RowsDeletedEntries(init, newContent);
      var lines := IndexLines(ps);
      assert lines[..|lines| - 1] == IndexLines(init);
      if IndexLine(p) !in newContent {
        IndexLineRoundTrip(p);
        DeletedEntriesAppend(DeletedLines(IndexLines(init), newContent), [IndexLine(p)]);
        assert DeletedEntries([IndexLine(p)]) == [EntryOf(IndexLine(p))] by {
          assert [IndexLine(p)][..0] == [];
        }
      }
    }
  }

  /**
   * The comparison is by whole lines: a playlist still listed whose row
   * changed in any column (its track count, say) is reported as deleted.
   */
  lemma ChangedRowReportedDeleted(before: Playlist, after: Playlist)
    requires TabFree(before) && IndexLine(before) != IndexLine(after)
    ensures DeletedEntries(DeletedLines([IndexLine(before)], [IndexLine(after)])) == [DeletedPlaylist(before.name, before.id)]
  {
    IndexLineRoundTrip(before);
    var lines := [IndexLine(before)];
    assert DeletedLines(lines, [IndexLine(after)]) == lines by {
      assert lines[..0] == [];
    }
    assert lines[..0] == [];
  }

  /** The error of calling the one-parameter `get_playlist_file_name` with the repository name as well. */
  const ARITY_ERROR: PyError := TypeError("get_playlist_file_name() takes 1 positional argument but 2 were given")

  /**
   * `remove_deleted_playlists` as written: on an unborn branch it returns [];
   * otherwise it finds the deleted playlists and, for the first of them,
   * calls `get_playlist_file_name(get_repo_name(is_test_mode), playlist)`,
   * which raises TypeError before any file is removed. So it succeeds only
   * when nothing was deleted, and it never removes a file.
   */
  method RemoveDeletedPlaylists(registry: ManagerRegistry, fs: FileSystem, repo: Repo, diff: seq<WorktreeDiff>)
    returns (r: Result<seq<DeletedPlaylist>>)
    ensures !repo.HasHeadCommit() ==> r == Ok([])
    ensures repo.HasHeadCommit() && DeletedPlaylistsOf(registry.instance, fs.dirs, fs.files, diff).Err? ==>
      r == Err(DeletedPlaylistsOf(registry.instance, fs.dirs, fs.files, diff).error)
    ensures repo.HasHeadCommit() && DeletedPlaylistsOf(registry.instance, fs.dirs, fs.files, diff).Ok? ==>
      r == (if DeletedPlaylistsOf(registry.instance, fs.dirs, fs.files, diff).value == [] then Ok([]) else Err(ARITY_ERROR))
  {
    if !repo.HasHeadCommit() {
      return Ok([]);
    }
    var deletedPlaylists := GetDeletedPlaylists(registry, fs, diff);
    if deletedPlaylists.Err? {
      return deletedPlaylists;
    }
    if |deletedPlaylists.value| > 0 {
      // the first pass of the removal loop raises at the call
      return Err(ARITY_ERROR);
    }
    r := Ok([]);
  }

  /** The track files of the deleted playlists, where `get_playlist_file_name(playlist)` puts them. */
  function DeletedFilePaths(m: SnapshotOutputManager, ds: seq<DeletedPlaylist>): (paths: seq<Path>)
    ensures |paths| == |ds|
    ensures forall i :: 0 <= i < |ds| ==> paths[i] == PlaylistFileName(m, IndexEntry(ds[i]))
  {
    seq(|ds|, i requires 0 <= i < |ds| => PlaylistFileName(m, IndexEntry(ds[i])))
  }

  /** Removing `paths` in order succeeds: each is a file and none comes twice. */
  predicate Removable(files: map<Path, seq<string>>, paths: seq<Path>)
  {
    |paths| == 0 ||
      var last := paths[|paths| - 1];
      Removable(files, paths[..|paths| - 1]) && last in files && last !in paths[..|paths| - 1]
  }

  /** The set of the paths. */
  function PathSet(paths: seq<Path>): set<Path>
  {
    if |paths| == 0 then {} else PathSet(paths[..|paths| - 1]) + {paths[|paths| - 1]}
  }

  lemma {:induction false} PathSetMembers(paths: seq<Path>, p: Path)
    ensures p in PathSet(paths) <==> p in paths
  {
    if |paths| > 0 {
      var init := paths[..|paths| - 1];
      PathSetMembers(init, p);
      assert paths == init + [paths[|paths| - 1]];
    }
  }

  /** A sequence is removable only if each of its prefixes is. */
  lemma {:induction false} RemovablePrefix(files: map<Path, seq<string>>, paths: seq<Path>, n: nat)
    requires n <= |paths| && Removable(files, paths)
    ensures Removable(files, paths[..n])
    decreases |paths| - n
  {
    if n < |paths| {
      RemovablePrefix(files, paths[..|paths| - 1], n);
      assert paths[..|paths| - 1][..n] == paths[..n];
    } else {
      assert paths[..n] == paths;
    }
  }

  /** Removing the next path, a file, keeps the prefix removable and takes its file away. */
  lemma RemovedStep(files0: map<Path, seq<string>>, paths: seq<Path>, i: nat, files: map<Path, seq<string>>)
    requires i < |paths| && Removable(files0, paths[..i]) && files == files0 - PathSet(paths[..i])
    requires paths[i] in files
    ensures Removable(files0, paths[..i + 1])
    ensures files - {paths[i]} == files0 - PathSet(paths[..i + 1])
  {
    assert paths[..i + 1][..i] == paths[..i];
    PathSetMembers(paths[..i], paths[i]);
    assert PathSet(paths[..i + 1]) == PathSet(paths[..i]) + {paths[i]};
  }

  /** The next path is not a file: the whole sequence is not removable. */
  lemma RemovedStops(files0: map<Path, seq<string>>, paths: seq<Path>, i: nat, files: map<Path, seq<string>>)
    requires i < |paths| && files == files0 - PathSet(paths[..i])
    requires paths[i] !in files
    ensures !Removable(files0, paths)
  {
    if Removable(files0, paths) {
      RemovablePrefix(files0, paths, i + 1);
      assert paths[..i + 1][..i] == paths[..i];
      PathSetMembers(paths[..i], paths[i]);
    }
  }

  /**
   * The `os.remove` loop: each path in turn, stopping at the first that is
   * not a file. It succeeds exactly when the paths are `Removable`; the
   * files gone are those of the first `removed` paths, all of them on
   * success, and on failure the next path is not a file.
   */
  method RemoveFiles(fs: FileSystem, paths: seq<Path>) returns (r: Result<()>, ghost removed: nat)
    requires fs.Valid()
    modifies fs
    ensures fs.Valid() && fs.dirs == old(fs.dirs)
    ensures r.Ok? <==> Removable(old(fs.files), paths)
    ensures removed <= |paths| && (r.Ok? <==> removed == |paths|)
    ensures Removable(old(fs.files), paths[..removed]) && fs.files == old(fs.files) - PathSet(paths[..removed])
    ensures r.Err? ==> paths[removed] !in fs.files
    ensures r.Ok? ==> fs.files == old(fs.files) - PathSet(paths)
  {
    ghost var files0 := fs.files;
    for i := 0 to |paths|
      invariant fs.Valid() && fs.dirs == old(fs.dirs)
      invariant Removable(files0, paths[..i])
      invariant fs.files == files0 - PathSet(paths[..i])
    {
      if paths[i] in fs.files {
        RemovedStep(files0, paths, i, fs.files);
      } else {
        RemovedStops(files0, paths, i, fs.files);
      }
      r := fs.Remove(paths[i]);
      if r.Err? {
        removed := i;
        return;
      }
    }
    assert paths[..|paths|] == paths;
    r, removed := Ok(()), |paths|;
  }

  /**
   * `remove_deleted_playlists` with `get_playlist_file_name(playlist)` called
   * as declared: on an unborn branch nothing happens; otherwise the track
   * file of every reported playlist is removed, and the call succeeds exactly
   * when each of those is a file (and none is named twice).
   */
  method RemoveDeletedPlaylistsFixed(registry: ManagerRegistry, fs: FileSystem, repo: Repo, diff: seq<WorktreeDiff>)
    returns (r: Result<seq<DeletedPlaylist>>)
    requires fs.Valid()
    modifies fs
    ensures fs.Valid() && fs.dirs == old(fs.dirs)
    ensures !repo.HasHeadCommit() ==> r == Ok([]) && fs.files == old(fs.files)
    ensures repo.HasHeadCommit() && DeletedPlaylistsOf(registry.instance, old(fs.dirs), old(fs.files), diff).Err? ==>
      r == Err(DeletedPlaylistsOf(registry.instance, old(fs.dirs), old(fs.files), diff).error) && fs.files == old(fs.files)
    ensures repo.HasHeadCommit() && DeletedPlaylistsOf(registry.instance, old(fs.dirs), old(fs.files), diff).Ok? ==>
      var ds := DeletedPlaylistsOf(registry.instance, old(fs.dirs), old(fs.files), diff).value;
      && registry.instance != null
      && (r.Ok? <==> Removable(old(fs.files), DeletedFilePaths(registry.instance, ds)))
      && (r.Ok? ==> r.value == ds && fs.files == old(fs.files) - PathSet(DeletedFilePaths(registry.instance, ds)))
  {
    if !repo.HasHeadCommit() {
      return Ok([]);
    }
    var deletedPlaylists := GetDeletedPlaylists(registry, fs, diff);
    if deletedPlaylists.Err? {
      return deletedPlaylists;
    }
    var m := registry.instance;
    var removed, _ := RemoveFiles(fs, DeletedFilePaths(m, deletedPlaylists.value));
    if removed.Err? {
      return Err(removed.error);
    }
    r := deletedPlaylists;
  }

  /**
   * A committed index with one playlist, and a new index in which that
   * playlist's row changed (its track count went from 1 to 2, say): the
   * playlist is reported deleted, so `remove_deleted_playlists` as written
   * raises TypeError.
   */
  lemma ChangedRowReported(m: SnapshotOutputManager, dirs: set<Path>, files: map<Path, seq<string>>,
                           before: Playlist, after: Playlist)
    requires TabFree(before) && IndexLine(before) != IndexLine(after)
    requires m.PlaylistsIndexPath() in files
    requires files[m.PlaylistsIndexPath()] == [TsvLine(PLAYLIST_HEADER_ROW), IndexLine(after)]
    ensures DeletedPlaylistsOf(m, dirs, files, [WorktreeDiff(PLAYLISTS_INDEX_FILENAME, Some([TsvLine(PLAYLIST_HEADER_ROW), IndexLine(before)]))])
      == Ok([DeletedPlaylist(before.name, before.id)])
  {
    var newContent := files[m.PlaylistsIndexPath()];
    var oldContent := [TsvLine(PLAYLIST_HEADER_ROW), IndexLine(before)];
    SingleIndexDiff(oldContent, ReadIn(dirs, files, m.PlaylistsIndexPath()));
    IndexLineIsNotHeader(before);
    OneRowGone(before, newContent);
  }

  /** A diff whose one item is the index replaces the deleted lines once. */
  lemma SingleIndexDiff(oldContent: seq<string>, newContent: Result<seq<string>>)
    requires newContent.Ok?
    ensures IndexDiffLines([WorktreeDiff(PLAYLISTS_INDEX_FILENAME, Some(oldContent))], newContent)
      == Ok(DeletedLines(oldContent, newContent.value))
  {
    var diff := [WorktreeDiff(PLAYLISTS_INDEX_FILENAME, Some(oldContent))];
    assert PLAYLISTS_INDEX_FILENAME <= PLAYLISTS_INDEX_FILENAME;
    assert diff[..0] == [];
  }

  /** An index with one row whose line is gone reports that row's playlist. */
  lemma OneRowGone(p: Playlist, newContent: seq<string>)
    requires TabFree(p) && IndexLine(p) !in newContent
    requires TsvLine(PLAYLIST_HEADER_ROW) in newContent
    ensures DeletedEntries(DeletedLines([TsvLine(PLAYLIST_HEADER_ROW), IndexLine(p)], newContent)) == [DeletedPlaylist(p.name, p.id)]
  {
    DeletedEntriesOfIndex([p], newContent);
    assert [p][..0] == [];
    assert [TsvLine(PLAYLIST_HEADER_ROW), IndexLine(p)] == [TsvLine(PLAYLIST_HEADER_ROW)] + IndexLines([p]);
  }

  /** The header line splits back into the header row. */
  lemma HeaderSplit()
    ensures Split(TsvLine(PLAYLIST_HEADER_ROW), '\t') == PLAYLIST_HEADER_ROW
  {
    assert forall i :: 0 <= i < |PLAYLIST_HEADER_ROW| ==> '\t' !in PLAYLIST_HEADER_ROW[i];
    SplitJoin(PLAYLIST_HEADER_ROW, '\t');
  }

  /** No playlist's line reads as the header: LENGTH never prints as "LENGTH". */
  lemma IndexLineIsNotHeader(p: Playlist)
    requires TabFree(p)
    ensures IndexLine(p) != TsvLine(PLAYLIST_HEADER_ROW)
  {
    IndexRowsSplit(p);
    HeaderSplit();
    var length := IntToString(p.tracks.total);
    assert length[0] == '-' || '0' <= length[0] <= '9' by {
      if p.tracks.total < 0 {
        NegativeToString(p.tracks.total);
      }
    }
    assert PLAYLIST_HEADER_ROW[2][0] == 'L';
  }

  /** Rows of playlists whose track counts differ differ. */
  lemma TrackCountChangesRow(before: Playlist, after: Playlist)
    requires TabFree(before) && TabFree(after)
    requires before.tracks.total != after.tracks.total
    ensures IndexLine(before) != IndexLine(after)
  {
    if IndexLine(before) == IndexLine(after) {
      IndexRowsSplit(before);
      IndexRowsSplit(after);
      assert PlaylistToRow(before)[2] == PlaylistToRow(after)[2];
      IntToStringInjective(before.tracks.total, after.tracks.total);
    }
  }
}
