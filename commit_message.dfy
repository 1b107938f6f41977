/**
 * `get_commit_message_for_amending` (spotify_snapshot/gitutils.py): the
 * message that replaces the temporary commit's. It is a title with the
 * timestamp, a blank line, then detail lines: the liked-songs summary and,
 * on the first commit, a per-file track count, or afterwards the created,
 * deleted, renamed and changed playlists. The commit's stats, its diff
 * against its parent and the timestamp are inputs.
 */
module CommitMessage {
  import opened Wrappers
  import opened Text
  import opened PyDict
  import opened SpotifyDatatypes
  import opened FileTree
  import opened OutputManager
  import opened Snapshot

  /** `commit.stats.files[path]`: lines added and removed in one file. */
  datatype FileStat = FileStat(insertions: nat, deletions: nat)

  /**
   * One item of a GitPython diff `x.diff(y)`: `aPath` is the file's path in
   * `x`, `bPath` its path in `y`, and `newFile` marks a file present only in
   * `y`. The message is built from `commit.diff(parent)`, so there `aPath` is
   * the commit's (new) name and `newFile` marks a file the commit deleted.
   */
  datatype CommitDiff = CommitDiff(aPath: string, bPath: string, renamedFile: bool, newFile: bool)

  /** What a commit did to one file, relative to its parent. */
  datatype FileChange = Added(path: string) | Deleted(path: string) | Modified(path: string)
                      | Renamed(oldPath: string, newPath: string)

  /** A value of `playlist_stats`: an int on the first commit, an added/removed dict afterwards. */
  datatype ChangeStat = TrackCount(count: int) | Changes(added: int, removed: int)

  const PLAYLISTS_PREFIX: string := "playlists/"
  const CREATED_HEADING: string := "\nCreated Playlists:"
  const DELETED_HEADING: string := "\nDeleted Playlists:"
  const RENAMED_HEADING: string := "\nRenamed Playlists:"
  const CHANGED_HEADING: string := "\nChanged Playlists:"
  const DETAILS_HEADING: string := "\nPlaylist Details:"
  const INITIAL_TITLE: string := "Initial Spotify Snapshot - "
  const LATER_TITLE: string := "Spotify Snapshot - "

  /** The rename arrow as the source spells it: U+2192 decoded as cp1252 ("â†’"). */
  const RENAME_ARROW: string := "\U{e2}\U{2020}\U{2019}"

  /** The characters `rstrip(").tsv")` removes: a set, not a suffix. */
  const ID_STRIP_CHARS: set<char> := {')', '.', 't', 's', 'v'}

  /** The title: `Initial ...` exactly when the commit has no parent. */
  function Title(parents: nat, currentTime: string): string
  {
    if parents == 0 then INITIAL_TITLE + currentTime else LATER_TITLE + currentTime
  }

  /** One file's stats as `playlist_stats` records them: the header line discounted on the first commit. */
  function ChangeOf(s: FileStat, isFirst: bool): ChangeStat
  {
    if isFirst then TrackCount(s.insertions - 1) else Changes(s.insertions, s.deletions)
  }

  /** `liked_songs_add_remove_stats` after the loop over `stats.files`. */
  function LikedSongsChange(stats: Dict<string, FileStat>, isFirst: bool): Option<ChangeStat>
  {
    if LIKED_SONGS_FILENAME in stats.entries then Some(ChangeOf(stats.entries[LIKED_SONGS_FILENAME], isFirst)) else None
  }

  /** `changed_file.split("/")[-1].replace(".tsv", "")`. */
  function StatsName(path: string): string
  {
    Replace(LastField(path, '/'), ".tsv", "")
  }

  /** `playlist_stats` after the loop: the filter lets only the liked-songs file through. */
  function PlaylistStats(stats: Dict<string, FileStat>, isFirst: bool): Dict<string, ChangeStat>
  {
    match LikedSongsChange(stats, isFirst)
    case None => Empty()
    case Some(c) => Empty<string, ChangeStat>().Set(StatsName(LIKED_SONGS_FILENAME), c)
  }

  /**
   * `playlist_stats` holds at most one entry, present exactly when the
   * liked-songs file has stats, and its value discounts the header line on
   * the first commit only.
   */
  lemma PlaylistStatsShape(stats: Dict<string, FileStat>, isFirst: bool)
    ensures PlaylistStats(stats, isFirst).Valid()
    ensures PlaylistStats(stats, isFirst).Len() <= 1
    ensures PlaylistStats(stats, isFirst).Len() == 1 <==> LIKED_SONGS_FILENAME in stats.entries
    ensures LIKED_SONGS_FILENAME in stats.entries ==>
      var s := stats.entries[LIKED_SONGS_FILENAME];
      && PlaylistStats(stats, isFirst).keys == [StatsName(LIKED_SONGS_FILENAME)]
      && PlaylistStats(stats, isFirst).entries[StatsName(LIKED_SONGS_FILENAME)]
        == (if isFirst then TrackCount(s.insertions - 1) else Changes(s.insertions, s.deletions))
  {
  }

  /** The stats of any other file leave the liked-songs figures and `playlist_stats` as they were. */
  lemma OtherFilesIgnored(stats: Dict<string, FileStat>, path: string, s: FileStat, isFirst: bool)
    requires path != LIKED_SONGS_FILENAME
    ensures LikedSongsChange(stats.Set(path, s), isFirst) == LikedSongsChange(stats, isFirst)
    ensures PlaylistStats(stats.Set(path, s), isFirst) == PlaylistStats(stats, isFirst)
  {
  }

  /** The loop over `stats.files` that skips every file but the liked songs. */
  method CollectFileStats(stats: Dict<string, FileStat>, isFirst: bool)
    returns (liked: Option<ChangeStat>, playlistStats: Dict<string, ChangeStat>)
    requires stats.Valid()
    ensures liked == LikedSongsChange(stats, isFirst)
    ensures playlistStats == PlaylistStats(stats, isFirst)
  {
    liked, playlistStats := None, Empty();
    for i := 0 to |stats.keys|
      invariant liked.None? ==> playlistStats == Empty() && forall j :: 0 <= j < i ==> stats.keys[j] != LIKED_SONGS_FILENAME
      invariant liked.Some? ==> liked == LikedSongsChange(stats, isFirst) && playlistStats == PlaylistStats(stats, isFirst)
    {
      var changedFile := stats.keys[i];
      if LIKED_SONGS_FILENAME != changedFile {
        continue;
      }
      var fileStats := stats.entries[changedFile];
      liked := Some(ChangeOf(fileStats, isFirst));
      playlistStats := Empty<string, ChangeStat>().Set(StatsName(changedFile), ChangeOf(fileStats, isFirst));
    }
  }

  /** `liked_songs_count`: the liked-songs file's line count minus the header, or None when it does not exist. */
  function LikedSongsCount(dirs: set<Path>, files: map<Path, seq<string>>, p: Path): Result<Option<int>>
  {
    if p in files then Ok(Some(|files[p]| - 1))
    else if p in dirs then Err(IsADirectoryError(p))
    else Ok(None)
  }

  /** `f"{liked_songs_count}"`. */
  function CountText(count: Option<int>): string
  {
    if count.None? then "None" else IntToString(count.value)
  }

  /** `f"{v}"` for a `playlist_stats` value. */
  function StatText(c: ChangeStat): string
  {
    match c
    case TrackCount(n) => IntToString(n)
    case Changes(a, r) => "{'added': " + IntToString(a) + ", 'removed': " + IntToString(r) + "}"
  }

  /** The liked-songs lines: the count, and on later commits the changes. */
  function LikedSongsLines(liked: Option<ChangeStat>, likedCount: Option<int>, isFirst: bool): seq<string>
  {
    if liked.None? then []
    else
      var countLine := "Liked Songs        : " + CountText(likedCount) + " tracks";
      if isFirst || liked.value.TrackCount? then [countLine]
      else [countLine, "Liked Songs Changes: +" + IntToString(liked.value.added) + ", -" + IntToString(liked.value.removed)]
  }

  /** `f"- {playlist}: {track_count} tracks"` for each key of `keys` in `ps`. */
  function DetailLines(ps: Dict<string, ChangeStat>, keys: seq<string>): seq<string>
  {
    if |keys| == 0 then []
    else
      var k := keys[|keys| - 1];
      var init := DetailLines(ps, keys[..|keys| - 1]);
      if k in ps.entries then init + ["- " + k + ": " + StatText(ps.entries[k]) + " tracks"] else init
  }

  /** The first commit's lines after the liked songs. */
  function FirstCommitLines(ps: Dict<string, ChangeStat>): seq<string>
  {
    ["Number of Playlists: " + NatToString(ps.Len()), DETAILS_HEADING] + DetailLines(ps, ps.keys)
  }

  /** `a_path.split("/")[-1].split(" (")[0]`: the playlist name of a track file path. */
  function NameOfPath(path: string): string
  {
    BeforeFirst(LastField(path, '/'), " (")
  }

  /** A rename whose `a` side is a playlist track file. */
  predicate IsRename(d: CommitDiff)
  {
    d.renamedFile && StartsWith(d.aPath, PLAYLISTS_PREFIX)
  }

  /** A file only on the `b` side, not part of a rename, under `playlists/`. */
  predicate IsCreation(d: CommitDiff)
  {
    !d.renamedFile && d.newFile && StartsWith(d.bPath, PLAYLISTS_PREFIX)
  }

  /** `a_path.split("(")[-1].rstrip(").tsv")`, as written: strips any trailing `)`, `.`, `t`, `s`, `v`. */
  function RenamedIdAsWritten(aPath: string): string
  {
    RStrip(LastField(aPath, '('), ID_STRIP_CHARS)
  }

  /** `a_path.split("(")[-1].removesuffix(").tsv")`: the id as the file name spells it. */
  function RenamedId(aPath: string): string
  {
    RemoveSuffix(LastField(aPath, '('), ").tsv")
  }

  /** `renamed_playlists`: the (`a` side, `b` side) names of each rename, in diff order. */
  function Renames(diff: seq<CommitDiff>): seq<(string, string)>
  {
    if |diff| == 0 then []
    else
      var d := diff[|diff| - 1];
      var init := Renames(diff[..|diff| - 1]);
      if IsRename(d) then init + [(NameOfPath(d.aPath), NameOfPath(d.bPath))] else init
  }

  /** `renamed_playlist_ids`, as written: each rename's id read with `rstrip(").tsv")`. */
  function RenamedIds(diff: seq<CommitDiff>): set<string>
  {
    if |diff| == 0 then {}
    else
      var d := diff[|diff| - 1];
      var init := RenamedIds(diff[..|diff| - 1]);
      if IsRename(d) then init + {RenamedIdAsWritten(d.aPath)} else init
  }

  /** `renamed_playlist_ids` with the corrected id: `removesuffix(").tsv")`. */
  function RenamedIdsFixed(diff: seq<CommitDiff>): set<string>
  {
    if |diff| == 0 then {}
    else
      var d := diff[|diff| - 1];
      var init := RenamedIdsFixed(diff[..|diff| - 1]);
      if IsRename(d) then init + {RenamedId(d.aPath)} else init
  }

  /** The first loop over the diff. */
  method CollectRenames(diff: seq<CommitDiff>) returns (renamed: seq<(string, string)>, ids: set<string>)
    ensures renamed == Renames(diff) && ids == RenamedIds(diff)
  {
    renamed, ids := [], {};
    for i := 0 to |diff|
      invariant renamed == Renames(diff[..i]) && ids == RenamedIds(diff[..i])
    {
      assert diff[..i + 1][..i] == diff[..i];
      var d := diff[i];
      if d.renamedFile && StartsWith(d.aPath, PLAYLISTS_PREFIX) {
        var oldName := NameOfPath(d.aPath);
        var newName := NameOfPath(d.bPath);
        var playlistId := RenamedIdAsWritten(d.aPath);
        renamed := renamed + [(oldName, newName)];
        ids := ids + {playlistId};
      }
    }
    assert diff[..|diff|] == diff;
  }

  /** `[p for p in deleted_playlists if p.id not in renamed_playlist_ids]`. */
  function Unrenamed(deleted: seq<DeletedPlaylist>, ids: set<string>): seq<DeletedPlaylist>
  {
    if |deleted| == 0 then []
    else
      var p := deleted[|deleted| - 1];
      var init := Unrenamed(deleted[..|deleted| - 1], ids);
      if p.id in ids then init else init + [p]
  }

  /** The filter keeps exactly the deleted playlists whose id was not renamed, in their order. */
  lemma {:induction false} UnrenamedMembers(deleted: seq<DeletedPlaylist>, ids: set<string>, p: DeletedPlaylist)
    ensures p in Unrenamed(deleted, ids) <==> p in deleted && p.id !in ids
  {
    if |deleted| > 0 {
      var init := deleted[..|deleted| - 1];
      UnrenamedMembers(init, ids, p);
      assert deleted == init + [deleted[|deleted| - 1]];
    }
  }

  /** With no renames, every deleted playlist is listed. */
  lemma {:induction false} UnrenamedNone(deleted: seq<DeletedPlaylist>)
    ensures Unrenamed(deleted, {}) == deleted
  {
    if |deleted| > 0 {
      UnrenamedNone(deleted[..|deleted| - 1]);
    }
  }

  /** `created_playlists`: names of the playlist files only on the `b` side, in diff order. */
  function Created(diff: seq<CommitDiff>): seq<string>
  {
    if |diff| == 0 then []
    else
      var d := diff[|diff| - 1];
      var init := Created(diff[..|diff| - 1]);
      if IsCreation(d) then init + [NameOfPath(d.bPath)] else init
  }

  /** The second loop over the diff. */
  method CollectCreated(diff: seq<CommitDiff>) returns (created: seq<string>)
    ensures created == Created(diff)
  {
    created := [];
    for i := 0 to |diff|
      invariant created == Created(diff[..i])
    {
      assert diff[..i + 1][..i] == diff[..i];
      var d := diff[i];
      if !d.renamedFile && d.newFile && StartsWith(d.bPath, PLAYLISTS_PREFIX) {
        created := created + [NameOfPath(d.bPath)];
      }
    }
    assert diff[..|diff|] == diff;
  }

  /** GitPython's `commit.diff(parent)` item for one change: the commit is the `a` side. */
  function CommitSideDiff(c: FileChange): CommitDiff
  {
    match c
    case Added(p) => CommitDiff(p, p, false, false)
    case Deleted(p) => CommitDiff(p, p, false, true)
    case Modified(p) => CommitDiff(p, p, false, false)
    case Renamed(o, n) => CommitDiff(n, o, true, false)
  }

  /** GitPython's `parent.diff(commit)` item for one change: the parent is the `a` side. */
  function ParentSideDiff(c: FileChange): CommitDiff
  {
    match c
    case Added(p) => CommitDiff(p, p, false, true)
    case Deleted(p) => CommitDiff(p, p, false, false)
    case Modified(p) => CommitDiff(p, p, false, false)
    case Renamed(o, n) => CommitDiff(o, n, true, false)
  }

  /** `commit.diff(commit.parents[0])`, as written. */
  function CommitDiffOf(cs: seq<FileChange>): (r: seq<CommitDiff>)
    ensures |r| == |cs| && forall i :: 0 <= i < |cs| ==> r[i] == CommitSideDiff(cs[i])
  {
    if |cs| == 0 then [] else CommitDiffOf(cs[..|cs| - 1]) + [CommitSideDiff(cs[|cs| - 1])]
  }

  /** `commit.parents[0].diff(commit)`: the diff in the direction the message means. */
  function ParentDiffOf(cs: seq<FileChange>): (r: seq<CommitDiff>)
    ensures |r| == |cs| && forall i :: 0 <= i < |cs| ==> r[i] == ParentSideDiff(cs[i])
  {
    if |cs| == 0 then [] else ParentDiffOf(cs[..|cs| - 1]) + [ParentSideDiff(cs[|cs| - 1])]
  }

  /** Names of the playlist files the commit added, in order. */
  function AddedNames(cs: seq<FileChange>): seq<string>
  {
    if |cs| == 0 then []
    else
      var c := cs[|cs| - 1];
      var init := AddedNames(cs[..|cs| - 1]);
      if c.Added? && StartsWith(c.path, PLAYLISTS_PREFIX) then init + [NameOfPath(c.path)] else init
  }

  /** Names of the playlist files the commit deleted, in order. */
  function DeletedNames(cs: seq<FileChange>): seq<string>
  {
    if |cs| == 0 then []
    else
      var c := cs[|cs| - 1];
      var init := DeletedNames(cs[..|cs| - 1]);
      if c.Deleted? && StartsWith(c.path, PLAYLISTS_PREFIX) then init + [NameOfPath(c.path)] else init
  }

  /** (old, new) names of the commit's renames of playlist files, in order. */
  function RenamedNames(cs: seq<FileChange>): seq<(string, string)>
  {
    if |cs| == 0 then []
    else
      var c := cs[|cs| - 1];
      var init := RenamedNames(cs[..|cs| - 1]);
      if c.Renamed? && StartsWith(c.oldPath, PLAYLISTS_PREFIX) then init + [(NameOfPath(c.oldPath), NameOfPath(c.newPath))]
      else init
  }

  /** (new, old) names of the commit's renames whose new file is a playlist file, in order. */
  function RenamedNamesBackwards(cs: seq<FileChange>): seq<(string, string)>
  {
    if |cs| == 0 then []
    else
      var c := cs[|cs| - 1];
      var init := RenamedNamesBackwards(cs[..|cs| - 1]);
      if c.Renamed? && StartsWith(c.newPath, PLAYLISTS_PREFIX) then init + [(NameOfPath(c.newPath), NameOfPath(c.oldPath))]
      else init
  }

  /**
   * As written, "Created Playlists" lists the playlist files the commit
   * DELETED, never the ones it added, because `commit.diff(parent)` marks as
   * `new_file` what only the parent has.
   */
  lemma {:induction false} CreatedFromCommitDiff(cs: seq<FileChange>)
    ensures Created(CommitDiffOf(cs)) == DeletedNames(cs)
  {
    if |cs| > 0 {
      var init := cs[..|cs| - 1];
      CreatedFromCommitDiff(init);
      var diff := CommitDiffOf(cs);
      assert diff == CommitDiffOf(init) + [diff[|cs| - 1]];
      assert diff[..|cs| - 1] == CommitDiffOf(init);
    }
  }

  /** As written, each rename comes out as (new name, old name), and only when the new file is a playlist file. */
  lemma {:induction false} RenamesFromCommitDiff(cs: seq<FileChange>)
    ensures Renames(CommitDiffOf(cs)) == RenamedNamesBackwards(cs)
  {
    if |cs| > 0 {
      var init := cs[..|cs| - 1];
      RenamesFromCommitDiff(init);
      var diff := CommitDiffOf(cs);
      assert diff == CommitDiffOf(init) + [diff[|cs| - 1]];
      assert diff[..|cs| - 1] == CommitDiffOf(init);
    }
  }

  /** A commit that adds one playlist file and deletes another reports the deleted one as created. */
  lemma CreatedAsWrittenCounterexample(added: string, deleted: string)
    requires StartsWith(added, PLAYLISTS_PREFIX) && StartsWith(deleted, PLAYLISTS_PREFIX)
    ensures Created(CommitDiffOf([Added(added), Deleted(deleted)])) == [NameOfPath(deleted)]
    ensures Created(ParentDiffOf([Added(added), Deleted(deleted)])) == [NameOfPath(added)]
  {
    var cs := [Added(added), Deleted(deleted)];
    assert cs[..1][..0] == [] && cs[..1] == [Added(added)];
    assert |cs| == 2 && cs[..|cs| - 1] == cs[..1] && cs[|cs| - 1] == Deleted(deleted);
    assert DeletedNames(cs[..1]) == [] && DeletedNames(cs) == [NameOfPath(deleted)];
    assert AddedNames(cs[..1]) == [NameOfPath(added)];
    assert AddedNames(cs) == AddedNames(cs[..1]);
    CreatedFromCommitDiff(cs);
    CreatedFromParentDiff(cs);
  }

  /** Corrected: with the parent as the `a` side, "Created Playlists" lists exactly the playlist files the commit added. */
  lemma {:induction false} CreatedFromParentDiff(cs: seq<FileChange>)
    ensures Created(ParentDiffOf(cs)) == AddedNames(cs)
  {
    if |cs| > 0 {
      var init := cs[..|cs| - 1];
      CreatedFromParentDiff(init);
      var diff := ParentDiffOf(cs);
      assert diff == ParentDiffOf(init) + [diff[|cs| - 1]];
      assert diff[..|cs| - 1] == ParentDiffOf(init);
    }
  }

  /** Corrected: with the parent as the `a` side, each playlist rename comes out as (old name, new name). */
  lemma {:induction false} RenamesFromParentDiff(cs: seq<FileChange>)
    ensures Renames(ParentDiffOf(cs)) == RenamedNames(cs)
  {
    if |cs| > 0 {
      var init := cs[..|cs| - 1];
      RenamesFromParentDiff(init);
      var diff := ParentDiffOf(cs);
      assert diff == ParentDiffOf(init) + [diff[|cs| - 1]];
      assert diff[..|cs| - 1] == ParentDiffOf(init);
    }
  }


  /** `f"- {item}"` for each item. */
  function Bullets(items: seq<string>): (lines: seq<string>)
    ensures |lines| == |items|
    ensures forall i :: 0 <= i < |items| ==> lines[i] == "- " + items[i]
  {
    seq(|items|, i requires 0 <= i < |items| => "- " + items[i])
  }

  /** A heading followed by its items, or nothing at all when there are none. */
  function Section(heading: string, items: seq<string>): seq<string>
  {
    if |items| == 0 then [] else [heading] + Bullets(items)
  }

  function Names(ds: seq<DeletedPlaylist>): (names: seq<string>)
    ensures |names| == |ds|
  {
    seq(|ds|, i requires 0 <= i < |ds| => ds[i].name)
  }

  /** `f"{old_name} â†’ {new_name}"` for each rename. */
  function RenameLabels(renamed: seq<(string, string)>): (labels: seq<string>)
    ensures |labels| == |renamed|
  {
    seq(|renamed|, i requires 0 <= i < |renamed| => renamed[i].0 + " " + RENAME_ARROW + " " + renamed[i].1)
  }

  /** The loop that appends `f"- {item}"` for each item. */
  method AppendBullets(details: seq<string>, items: seq<string>) returns (out: seq<string>)
    ensures out == details + Bullets(items)
  {
    out := details;
    for i := 0 to |items|
      invariant out == details + Bullets(items[..i])
    {
      assert Bullets(items[..i + 1]) == Bullets(items[..i]) + ["- " + items[i]];
      out := out + ["- " + items[i]];
    }
    assert items[..|items|] == items;
  }

  /** A value that counts as a change: some lines added or removed. */
  predicate HasChanges(c: ChangeStat)
  {
    c.Changes? && (c.added > 0 || c.removed > 0)
  }

  /** `f"- {playlist}: +{added} -{removed}"`. */
  function ChangedLine(name: string, c: ChangeStat): string
    requires c.Changes?
  {
    "- " + name + ": +" + IntToString(c.added) + " -" + IntToString(c.removed)
  }

  /** The changed line of each key of `keys` whose value changed. */
  function ChangedLines(ps: Dict<string, ChangeStat>, keys: seq<string>): seq<string>
  {
    if |keys| == 0 then []
    else
      var k := keys[|keys| - 1];
      var init := ChangedLines(ps, keys[..|keys| - 1]);
      if k in ps.entries && HasChanges(ps.entries[k]) then init + [ChangedLine(k, ps.entries[k])]
      else init
  }

  /** One more key adds its changed line, if any. */
  lemma ChangedLinesStep(ps: Dict<string, ChangeStat>, keys: seq<string>, i: nat)
    requires i < |keys|
    ensures ChangedLines(ps, keys[..i + 1]) ==
      ChangedLines(ps, keys[..i])
      + (if keys[i] in ps.entries && HasChanges(ps.entries[keys[i]]) then [ChangedLine(keys[i], ps.entries[keys[i]])] else [])
  {
    assert keys[..i + 1][..i] == keys[..i];
  }

  /** The changed section: its heading stays only when some line follows it. */
  function ChangedSection(ps: Dict<string, ChangeStat>): seq<string>
  {
    if ChangedLines(ps, ps.keys) == [] then [] else [CHANGED_HEADING] + ChangedLines(ps, ps.keys)
  }

  /**
   * The heading, then the loop over `playlist_stats` that records whether
   * anything changed, then `commit_details.pop()` of the heading when
   * nothing did. With at most one entry, `sorted(playlist_stats.items())`
   * is the dict's own order.
   */
  method AppendChanges(details: seq<string>, ps: Dict<string, ChangeStat>) returns (out: seq<string>)
    ensures out == details + ChangedSection(ps)
  {
    var hasChanges;
    out, hasChanges := AppendChangedLines(details + [CHANGED_HEADING], ps);
    if !hasChanges {
      out := out[..|out| - 1];
      assert out == details;
    }
  }

  /** The loop over `playlist_stats`: appends the changed lines and records whether there were any. */
  method AppendChangedLines(details: seq<string>, ps: Dict<string, ChangeStat>) returns (out: seq<string>, hasChanges: bool)
    ensures out == details + ChangedLines(ps, ps.keys)
    ensures hasChanges <==> ChangedLines(ps, ps.keys) != []
  {
    out := details;
    hasChanges := false;
    for i := 0 to |ps.keys|
      invariant out == details + ChangedLines(ps, ps.keys[..i])
      invariant hasChanges <==> ChangedLines(ps, ps.keys[..i]) != []
    {
      var k := ps.keys[i];
      ChangedLinesStep(ps, ps.keys, i);
      if k in ps.entries && HasChanges(ps.entries[k]) {
        hasChanges := true;
        out := out + [ChangedLine(k, ps.entries[k])];
      }
    }
    assert ps.keys[..|ps.keys|] == ps.keys;
  }

  /** The later commits' lines after the liked songs: created, deleted, renamed, changed. */
  function LaterCommitLines(ps: Dict<string, ChangeStat>, diff: seq<CommitDiff>, deleted: seq<DeletedPlaylist>): seq<string>
  {
    Section(CREATED_HEADING, Created(diff))
    + Section(DELETED_HEADING, Names(Unrenamed(deleted, RenamedIds(diff))))
    + Section(RENAMED_HEADING, RenameLabels(Renames(diff)))
    + ChangedSection(ps)
  }

  /** `commit_details`. */
  function Details(parents: nat, stats: Dict<string, FileStat>, likedCount: Option<int>,
                   diff: seq<CommitDiff>, deleted: seq<DeletedPlaylist>): seq<string>
  {
    var isFirst := parents == 0;
    var ps := PlaylistStats(stats, isFirst);
    LikedSongsLines(LikedSongsChange(stats, isFirst), likedCount, isFirst)
    + (if isFirst then FirstCommitLines(ps) else LaterCommitLines(ps, diff, deleted))
  }

  /** `"\n\n".join([commit_title, "\n".join(commit_details)])`. */
  function MessageOf(parents: nat, currentTime: string, stats: Dict<string, FileStat>, likedCount: Option<int>,
                     diff: seq<CommitDiff>, deleted: seq<DeletedPlaylist>): string
  {
    Title(parents, currentTime) + "\n\n" + Join(Details(parents, stats, likedCount, diff, deleted), "\n")
  }

  /**
   * `get_commit_message_for_amending` for a commit with `parents` parents,
   * its stats and diff, the deleted playlists and the working tree. It reads
   * the registered manager (RuntimeError before `initialize`) and the
   * liked-songs file (which fails only when that path is a directory).
   */
  method GetCommitMessageForAmending(registry: ManagerRegistry, fs: FileSystem, parents: nat, currentTime: string,
                                     stats: Dict<string, FileStat>, diff: seq<CommitDiff>, deleted: seq<DeletedPlaylist>)
    returns (r: Result<string>)
    requires stats.Valid()
    ensures registry.instance == null ==> r == Err(NOT_INITIALIZED)
    ensures registry.instance != null ==>
      var count := LikedSongsCount(fs.dirs, fs.files, registry.instance.LikedSongsPath());
      r == if count.Err? then Err(count.error) else Ok(MessageOf(parents, currentTime, stats, count.value, diff, deleted))
  {
    var manager := registry.GetInstance();
    if manager.Err? {
      return Err(manager.error);
    }
    var outputManager := manager.value;
    var isFirstCommit := parents == 0;
    var commitTitle := if isFirstCommit then INITIAL_TITLE + currentTime else LATER_TITLE + currentTime;
    var likedSongsStats, playlistStats := CollectFileStats(stats, isFirstCommit);
    var likedSongsFile := outputManager.LikedSongsPath();
    var likedSongsCount := ReadLikedSongsCount(fs, likedSongsFile);
    if likedSongsCount.Err? {
      return Err(likedSongsCount.error);
    }
    var commitDetails := CommitDetails(likedSongsStats, likedSongsCount.value, playlistStats, isFirstCommit, diff, deleted);
    r := Ok(commitTitle + "\n\n" + Join(commitDetails, "\n"));
  }

  /** `if os.path.exists(liked_songs_file)`, then its line count minus the header; opening a directory raises. */
  method ReadLikedSongsCount(fs: FileSystem, p: Path) returns (r: Result<Option<int>>)
    ensures r == LikedSongsCount(fs.dirs, fs.files, p)
  {
    var likedSongsCount := None;
    if p in fs.files || p in fs.dirs {
      var lines := ReadIn(fs.dirs, fs.files, p);
      if lines.Err? {
        return Err(lines.error);
      }
      likedSongsCount := Some(|lines.value| - 1);
    }
    return Ok(likedSongsCount);
  }

  /** `commit_details`: the liked-songs lines, then the first or later commit's details. */
  method CommitDetails(liked: Option<ChangeStat>, likedCount: Option<int>, ps: Dict<string, ChangeStat>, isFirst: bool,
                       diff: seq<CommitDiff>, deleted: seq<DeletedPlaylist>) returns (details: seq<string>)
    requires liked.Some? && !isFirst ==> liked.value.Changes?
    ensures details == LikedSongsLines(liked, likedCount, isFirst)
      + (if isFirst then FirstCommitLines(ps) else LaterCommitLines(ps, diff, deleted))
  {
    details := [];
    if liked.Some? {
      details := details + ["Liked Songs        : " + CountText(likedCount) + " tracks"];
      if !isFirst {
        details := details + ["Liked Songs Changes: +" + IntToString(liked.value.added) + ", -" + IntToString(liked.value.removed)];
      }
    }
    if isFirst {
      details := AppendFirstCommitDetails(details, ps);
    } else {
      details := AppendLaterCommitDetails(details, ps, diff, deleted);
    }
  }

  /** The first commit's details: the number of playlists, then each one's track count. */
  method AppendFirstCommitDetails(details: seq<string>, ps: Dict<string, ChangeStat>) returns (out: seq<string>)
    ensures out == details + FirstCommitLines(ps)
  {
    out := details + ["Number of Playlists: " + NatToString(ps.Len()), DETAILS_HEADING];
    out := AppendDetails(out, ps);
  }

  /** A later commit's details: renames and creations from the diff, then the four sections. */
  method AppendLaterCommitDetails(details: seq<string>, ps: Dict<string, ChangeStat>, diff: seq<CommitDiff>,
                                  deleted: seq<DeletedPlaylist>) returns (out: seq<string>)
    ensures out == details + LaterCommitLines(ps, diff, deleted)
  {
    var renamedPlaylists, renamedPlaylistIds := CollectRenames(diff);
    var filteredDeletedPlaylists := Unrenamed(deleted, renamedPlaylistIds);
    var createdPlaylists := CollectCreated(diff);
    out := AppendSection(details, CREATED_HEADING, createdPlaylists);
    out := AppendSection(out, DELETED_HEADING, Names(filteredDeletedPlaylists));
    out := AppendSection(out, RENAMED_HEADING, RenameLabels(renamedPlaylists));
    out := AppendChanges(out, ps);
  }

  /** `if items: commit_details.append(heading)` followed by the bullet loop. */
  method AppendSection(details: seq<string>, heading: string, items: seq<string>) returns (out: seq<string>)
    ensures out == details + Section(heading, items)
  {
    out := details;
    if |items| > 0 {
      out := AppendBullets(out + [heading], items);
    }
  }

  /** The loop over `sorted(playlist_stats.items())` on the first commit (one entry at most, so already in order). */
  method AppendDetails(details: seq<string>, ps: Dict<string, ChangeStat>) returns (out: seq<string>)
    ensures out == details + DetailLines(ps, ps.keys)
  {
    out := details;
    for i := 0 to |ps.keys|
      invariant out == details + DetailLines(ps, ps.keys[..i])
    {
      var k := ps.keys[i];
      assert ps.keys[..i + 1][..i] == ps.keys[..i];
      if k in ps.entries {
        out := out + ["- " + k + ": " + StatText(ps.entries[k]) + " tracks"];
      }
    }
    assert ps.keys[..|ps.keys|] == ps.keys;
  }

  /** The title starts `Initial Spotify Snapshot - ` exactly on a commit without parents, and ends with the time. */
  lemma TitleMarksFirstCommit(parents: nat, currentTime: string)
    ensures INITIAL_TITLE <= Title(parents, currentTime) <==> parents == 0
    ensures LATER_TITLE <= Title(parents, currentTime) <==> parents != 0
    ensures Title(parents, currentTime)[|Title(parents, currentTime)| - |currentTime|..] == currentTime
  {
    if parents != 0 {
      assert Title(parents, currentTime)[0] != INITIAL_TITLE[0];
    } else {
      assert Title(parents, currentTime)[0] != LATER_TITLE[0];
    }
  }

  /** A playlist's track file as a path relative to the repository: `playlists/<escaped> (<id>).tsv`. */
  function TrackFilePath(name: string, id: string): string
  {
    PLAYLISTS_PREFIX + PlaylistBaseName(name, id)
  }

  lemma TrackFileLastSegment(name: string, id: string)
    requires '/' !in id
    ensures LastField(TrackFilePath(name, id), '/') == PlaylistBaseName(name, id)
  {
    assert PLAYLISTS_PREFIX == "playlists" + ['/'];
    LastFieldAfter("playlists", PlaylistBaseName(name, id), '/');
  }

  /** `s.split(sep)[0]` of `p + sep + rest` is `p` when no separator starts inside `p`. */
  lemma BeforeFirstAt(p: string, sep: string, rest: string)
    requires |sep| > 0
    requires forall i :: 0 <= i < |p| ==> !(sep <= (p + sep + rest)[i..])
    ensures BeforeFirst(p + sep + rest, sep) == p
  {
    var s := p + sep + rest;
    assert s[|p|..] == sep + rest;
    assert sep <= s[|p|..];
  }

  /**
   * The name the commit message shows for a track file is the playlist's
   * escaped name, when that name holds no `(` and the id no `/`.
   */
  lemma NameOfTrackFile(name: string, id: string)
    requires '/' !in id && '(' !in EscapedName(name)
    ensures NameOfPath(TrackFilePath(name, id)) == EscapedName(name)
  {
    TrackFileLastSegment(name, id);
    var esc := EscapedName(name);
    var rest := id + ").tsv";
    assert PlaylistBaseName(name, id) == esc + " (" + rest;
    forall i | 0 <= i < |esc|
      ensures !(" (" <= (esc + " (" + rest)[i..])
    {
      assert (esc + " (" + rest)[i + 1] != '(';
    }
    BeforeFirstAt(esc, " (", rest);
  }

  /** The corrected id extraction recovers the id of any track file whose id holds no `(`. */
  lemma RenamedIdOfTrackFile(name: string, id: string)
    requires '(' !in id
    ensures RenamedId(TrackFilePath(name, id)) == id
  {
    var a := PLAYLISTS_PREFIX + EscapedName(name) + " ";
    assert TrackFilePath(name, id) == a + ['('] + (id + ").tsv");
    LastFieldAfter(a, id + ").tsv", '(');
    assert (id + ").tsv")[|id|..] == ").tsv";
  }

  /** Stripping a set of characters ignores any tail made only of them. */
  lemma {:induction false} RStripTail(s: string, t: string, chars: set<char>)
    requires forall i :: 0 <= i < |t| ==> t[i] in chars
    ensures RStrip(s + t, chars) == RStrip(s, chars)
    decreases |t|
  {
    if |t| == 0 {
      assert s + t == s;
    } else {
      var t' := t[..|t| - 1];
      assert (s + t)[|s + t| - 1] == t[|t| - 1];
      assert (s + t)[..|s + t| - 1] == s + t';
      RStripTail(s, t', chars);
    }
  }

  /** The id as written agrees with the id whenever the id's last character is not one `rstrip` removes. */
  lemma RenamedIdAsWrittenAgrees(name: string, id: string)
    requires '(' !in id && |id| > 0 && id[|id| - 1] !in ID_STRIP_CHARS
    ensures RenamedIdAsWritten(TrackFilePath(name, id)) == id
  {
    var a := PLAYLISTS_PREFIX + EscapedName(name) + " ";
    assert TrackFilePath(name, id) == a + ['('] + (id + ").tsv");
    LastFieldAfter(a, id + ").tsv", '(');
    RStripTail(id, ").tsv", ID_STRIP_CHARS);
  }

  /** The id `abcst` loses its `st` to `rstrip(").tsv")`. */
  lemma StripEatsId()
    ensures RStrip("abcst" + ").tsv", ID_STRIP_CHARS) == "abc"
  {
    RStripTail("abcst", ").tsv", ID_STRIP_CHARS);
    assert "abcst" == "abc" + "st";
    RStripTail("abc", "st", ID_STRIP_CHARS);
    assert "abc"[2] !in ID_STRIP_CHARS;
  }

  /**
   * As written, `rstrip(").tsv")` also eats trailing id characters: the
   * renamed playlist `abcst` is recorded as id `abc`, so its old index row
   * still shows under "Deleted Playlists"; the corrected id keeps it out.
   * (In `commit.diff(parent)` a rename's `a` side carries the new name.)
   */
  lemma RenamedIdAsWrittenCounterexample(name: string, oldName: string)
    ensures RenamedIdAsWritten(TrackFilePath(name, "abcst")) == "abc"
    ensures RenamedId(TrackFilePath(name, "abcst")) == "abcst"
    ensures var rename := CommitDiff(TrackFilePath(name, "abcst"), TrackFilePath(oldName, "abcst"), true, false);
      var deleted := [DeletedPlaylist(oldName, "abcst")];
      && Unrenamed(deleted, RenamedIds([rename])) == deleted
      && Unrenamed(deleted, RenamedIdsFixed([rename])) == []
  {
    var a := PLAYLISTS_PREFIX + EscapedName(name) + " ";
    assert TrackFilePath(name, "abcst") == a + ['('] + ("abcst" + ").tsv");
    LastFieldAfter(a, "abcst" + ").tsv", '(');
    StripEatsId();
    RenamedIdOfTrackFile(name, "abcst");
    var rename := CommitDiff(TrackFilePath(name, "abcst"), TrackFilePath(oldName, "abcst"), true, false);
    assert IsRename(rename);
    assert [rename][..0] == [];
    assert RenamedIds([rename]) == {"abc"};
    assert RenamedIdsFixed([rename]) == {"abcst"};
    var deleted := [DeletedPlaylist(oldName, "abcst")];
    assert deleted[..0] == [];
    assert "abc" != "abcst";
  }

  /** `renamed_playlist_ids` holds exactly the ids, as `rstrip` reads them, of the renames in the diff. */
  lemma {:induction false} RenamedIdsMembers(diff: seq<CommitDiff>, id: string)
    ensures id in RenamedIds(diff) <==>
      exists i :: 0 <= i < |diff| && IsRename(diff[i]) && RenamedIdAsWritten(diff[i].aPath) == id
  {
    if |diff| > 0 {
      var init := diff[..|diff| - 1];
      RenamedIdsMembers(init, id);
      assert forall i :: 0 <= i < |init| ==> init[i] == diff[i];
    }
  }

  /** The corrected ids are exactly the file-name ids of the renames in the diff. */
  lemma {:induction false} RenamedIdsFixedMembers(diff: seq<CommitDiff>, id: string)
    ensures id in RenamedIdsFixed(diff) <==> exists i :: 0 <= i < |diff| && IsRename(diff[i]) && RenamedId(diff[i].aPath) == id
  {
    if |diff| > 0 {
      var init := diff[..|diff| - 1];
      RenamedIdsFixedMembers(init, id);
      assert forall i :: 0 <= i < |init| ==> init[i] == diff[i];
    }
  }

  /** The as-written ids are the corrected ones whenever `rstrip` reads every renamed id right. */
  lemma {:induction false} RenamedIdsAgree(diff: seq<CommitDiff>)
    requires forall i :: 0 <= i < |diff| && IsRename(diff[i]) ==> RenamedIdAsWritten(diff[i].aPath) == RenamedId(diff[i].aPath)
    ensures RenamedIds(diff) == RenamedIdsFixed(diff)
  {
    if |diff| > 0 {
      var init := diff[..|diff| - 1];
      assert forall i :: 0 <= i < |init| ==> init[i] == diff[i];
      RenamedIdsAgree(init);
    }
  }

  /** `created_playlists` names exactly the new, not renamed, playlist files of the diff. */
  lemma {:induction false} CreatedMembers(diff: seq<CommitDiff>, name: string)
    ensures name in Created(diff) <==> exists i :: 0 <= i < |diff| && IsCreation(diff[i]) && NameOfPath(diff[i].bPath) == name
  {
    if |diff| > 0 {
      var init := diff[..|diff| - 1];
      CreatedMembers(init, name);
      assert forall i :: 0 <= i < |init| ==> init[i] == diff[i];
    }
  }

  /** A renamed file is never also reported as created, and a created one never as renamed. */
  lemma CreationNotRename(d: CommitDiff)
    ensures !(IsCreation(d) && IsRename(d))
  {
  }

  /** The changed lines are empty exactly when no listed key has added or removed lines. */
  lemma {:induction false} ChangedLinesEmpty(ps: Dict<string, ChangeStat>, keys: seq<string>)
    ensures ChangedLines(ps, keys) == [] <==> forall i :: 0 <= i < |keys| ==> !(keys[i] in ps.entries && HasChanges(ps.entries[keys[i]]))
  {
    if |keys| > 0 {
      var init := keys[..|keys| - 1];
      ChangedLinesEmpty(ps, init);
      assert forall i :: 0 <= i < |init| ==> init[i] == keys[i];
    }
  }

  /** The "Changed Playlists" heading is popped exactly when no entry of `playlist_stats` changed. */
  lemma ChangedSectionEmpty(ps: Dict<string, ChangeStat>)
    requires ps.Valid()
    ensures ChangedSection(ps) == [] <==> forall k :: k in ps.entries ==> !HasChanges(ps.entries[k])
    ensures ChangedSection(ps) != [] ==> ChangedSection(ps)[0] == CHANGED_HEADING
  {
    ChangedLinesEmpty(ps, ps.keys);
  }

  /** A later commit whose diff renames and creates nothing lists every deleted playlist by name. */
  lemma DeletedSectionWithoutRenames(ps: Dict<string, ChangeStat>, diff: seq<CommitDiff>, deleted: seq<DeletedPlaylist>)
    requires forall i :: 0 <= i < |diff| ==> !IsRename(diff[i]) && !IsCreation(diff[i])
    ensures LaterCommitLines(ps, diff, deleted) == Section(DELETED_HEADING, Names(deleted)) + ChangedSection(ps)
  {
    NoRenames(diff);
    UnrenamedNone(deleted);
  }

  lemma {:induction false} NoRenames(diff: seq<CommitDiff>)
    requires forall i :: 0 <= i < |diff| ==> !IsRename(diff[i]) && !IsCreation(diff[i])
    ensures Renames(diff) == [] && RenamedIds(diff) == {} && Created(diff) == []
  {
    if |diff| > 0 {
      NoRenames(diff[..|diff| - 1]);
    }
  }

  /** On a first commit with exactly one entry, the detail loop writes that entry's one line. */
  lemma DetailLinesSingle(ps: Dict<string, ChangeStat>, k: string)
    requires ps.keys == [k] && k in ps.entries
    ensures DetailLines(ps, ps.keys) == ["- " + k + ": " + StatText(ps.entries[k]) + " tracks"]
  {
    assert ps.keys[..0] == [];
  }

  /**
   * The first commit's details for a snapshot whose liked-songs file gained
   * `n + 1` lines (header and `n` tracks) and now holds them: the count of
   * liked songs, then the playlist lines.
   */
  lemma FirstCommitDetails(stats: Dict<string, FileStat>, n: nat, diff: seq<CommitDiff>, deleted: seq<DeletedPlaylist>)
    requires LIKED_SONGS_FILENAME in stats.entries && stats.entries[LIKED_SONGS_FILENAME].insertions == n + 1
    ensures Details(0, stats, Some(n), diff, deleted) ==
      ["Liked Songs        : " + IntToString(n) + " tracks"] + FirstCommitLines(PlaylistStats(stats, true))
  {
    assert LikedSongsChange(stats, true) == Some(TrackCount(n));
  }

  /** Those playlist lines: one "playlist", the liked songs, with `n` tracks. */
  lemma FirstCommitPlaylistLines(stats: Dict<string, FileStat>, n: nat)
    requires LIKED_SONGS_FILENAME in stats.entries && stats.entries[LIKED_SONGS_FILENAME].insertions == n + 1
    ensures FirstCommitLines(PlaylistStats(stats, true)) ==
      [ "Number of Playlists: " + NatToString(1),
        DETAILS_HEADING,
        "- " + StatsName(LIKED_SONGS_FILENAME) + ": " + IntToString(n) + " tracks" ]
  {
    var ps := PlaylistStats(stats, true);
    PlaylistStatsShape(stats, true);
    DetailLinesSingle(ps, StatsName(LIKED_SONGS_FILENAME));
  }
}
