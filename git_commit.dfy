/**
 * `commit_files` (spotify_snapshot/gitutils.py): reconcile the deleted
 * playlists when HEAD exists, stop when the working tree is clean, else
 * commit everything as "temp" and amend the commit with the composed
 * message. The working tree's diff against HEAD, and the temporary commit's
 * stats and diff against its parent, are what the git engine would report;
 * they are inputs.
 */
module GitCommit {
  import opened Wrappers
  import opened PyDict
  import opened SpotifyDatatypes
  import opened FileTree
  import opened OutputManager
  import opened GitRepos
  import opened Reconcile
  import opened CommitMessage

  /** The message of the temporary commit that the amend replaces. */
  const TEMP_MESSAGE: string := "temp"

  /** The playlists reconciliation reports: none on the first commit, else those of the index diff. */
  function ReportedDeleted(isFirst: bool, m: SnapshotOutputManager?, dirs: set<Path>, files: map<Path, seq<string>>,
                           headDiff: seq<WorktreeDiff>): seq<DeletedPlaylist>
  {
    if isFirst then []
    else match DeletedPlaylistsOf(m, dirs, files, headDiff)
      case Ok(ds) => ds
      case Err(_) => []
  }

  /**
   * `commit_files`. Ok(None) is the "No changes to commit" return, Ok(Some(message))
   * a new commit carrying `message`. Deleted playlists' track files are removed
   * by the corrected reconciliation (see `Reconcile.RemoveDeletedPlaylistsFixed`).
   */
  method CommitFiles(registry: ManagerRegistry, fs: FileSystem, repo: Repo, headDiff: seq<WorktreeDiff>,
                     stats: Dict<string, FileStat>, commitDiff: seq<CommitDiff>, currentTime: string)
    returns (r: Result<Option<string>>)
    requires fs.Valid() && stats.Valid()
    modifies fs, repo
    ensures fs.Valid() && fs.dirs == old(fs.dirs)
    // no reconciliation on the first commit
    ensures !old(repo.HasHeadCommit()) ==> fs.files == old(fs.files)
    // a failed reconciliation commits nothing
    ensures old(repo.HasHeadCommit()) && DeletedPlaylistsOf(registry.instance, old(fs.dirs), old(fs.files), headDiff).Err? ==>
      && r == Err(DeletedPlaylistsOf(registry.instance, old(fs.dirs), old(fs.files), headDiff).error)
      && fs.files == old(fs.files) && repo.messages == old(repo.messages) && repo.tree == old(repo.tree)
    // a clean tree is left alone, a dirty one is committed
    ensures r.Ok? ==> (r.value.None? <==> WorkTree(fs.files, repo.root) == old(repo.tree))
    ensures r.Ok? && r.value.None? ==> repo.messages == old(repo.messages) && repo.tree == old(repo.tree)
    ensures r.Ok? && r.value.Some? ==>
      && repo.messages == old(repo.messages) + [r.value.value]
      && repo.tree == WorkTree(fs.files, repo.root)
      && !repo.IsDirty(fs.files)
      && registry.instance != null
      && LikedSongsCount(fs.dirs, fs.files, registry.instance.LikedSongsPath()).Ok?
      && r.value.value == MessageOf(if old(repo.HasHeadCommit()) then 1 else 0, currentTime, stats,
                                    LikedSongsCount(fs.dirs, fs.files, registry.instance.LikedSongsPath()).value, commitDiff,
                                    ReportedDeleted(!old(repo.HasHeadCommit()), registry.instance, old(fs.dirs), old(fs.files), headDiff))
    // a failure after the temporary commit leaves that commit in place
    ensures r.Err? ==> repo.messages == old(repo.messages) || repo.messages == old(repo.messages) + [TEMP_MESSAGE]
  {
    var isFirstCommit := !repo.HasHeadCommit();
    var deletedPlaylists := [];
    if !isFirstCommit {
      var removed := RemoveDeletedPlaylistsFixed(registry, fs, repo, headDiff);
      if removed.Err? {
        return Err(removed.error);
      }
      deletedPlaylists := removed.value;
    }
    assert deletedPlaylists == ReportedDeleted(isFirstCommit, registry.instance, old(fs.dirs), old(fs.files), headDiff);
    if !repo.IsDirty(fs.files) {
      return Ok(None);
    }
    repo.CommitAll(fs.files, TEMP_MESSAGE);
    var parents := if isFirstCommit then 0 else 1;
    var message := GetCommitMessageForAmending(registry, fs, parents, currentTime, stats, commitDiff, deletedPlaylists);
    if message.Err? {
      return Err(message.error);
    }
    repo.Amend(message.value);
    r := Ok(Some(message.value));
  }
}
