/**
 * SpotifySnapshotOutputManager (spotify_snapshot/spotify_snapshot_output_manager.py):
 * the object that knows where the snapshot files go. The class attribute
 * `_instance` is modelled by a `ManagerRegistry` object; the manager itself
 * only holds its base directory.
 */
module OutputManager {
  import opened Wrappers
  import opened FileTree

  const LIKED_SONGS_FILENAME: string := "liked_songs.tsv"
  const ALBUMS_FILENAME: string := "saved_albums.tsv"
  const PLAYLISTS_INDEX_FILENAME: string := "playlists.tsv"
  const PLAYLISTS_DIRNAME: string := "playlists"

  /** What `get_instance()` raises before `initialize`. */
  const NOT_INITIALIZED: PyError := RuntimeError("SpotifySnapshotOutputManager not initialized. Call initialize() first")

  class SnapshotOutputManager {
    const baseDir: Path

    constructor (baseDir: Path)
      ensures this.baseDir == baseDir
    {
      this.baseDir := baseDir;
    }

    /** `liked_songs_path`: `base_dir / "liked_songs.tsv"`. */
    function LikedSongsPath(): (p: Path)
      ensures |p| == |baseDir| + 1 && Parent(p) == baseDir && p[|baseDir|] == LIKED_SONGS_FILENAME
    {
      baseDir + [LIKED_SONGS_FILENAME]
    }

    /** `albums_path`: `base_dir / "saved_albums.tsv"`. */
    function AlbumsPath(): (p: Path)
      ensures |p| == |baseDir| + 1 && Parent(p) == baseDir && p[|baseDir|] == ALBUMS_FILENAME
    {
      baseDir + [ALBUMS_FILENAME]
    }

    /** `playlists_index_path`: `base_dir / "playlists.tsv"`. */
    function PlaylistsIndexPath(): (p: Path)
      ensures |p| == |baseDir| + 1 && Parent(p) == baseDir && p[|baseDir|] == PLAYLISTS_INDEX_FILENAME
    {
      baseDir + [PLAYLISTS_INDEX_FILENAME]
    }

    /** `playlists_dir_path`: `base_dir / "playlists"`. */
    function PlaylistsDirPath(): (p: Path)
      ensures |p| == |baseDir| + 1 && Parent(p) == baseDir && p[|baseDir|] == PLAYLISTS_DIRNAME
    {
      baseDir + [PLAYLISTS_DIRNAME]
    }

    /**
     * `ensure_output_dirs`: `mkdir(parents=True, exist_ok=True)` of `base_dir`
     * and then of `base_dir/playlists`, each only when that path does not
     * exist. It fails exactly when some prefix of `base_dir` is a regular
     * file, with NotADirectoryError: from the first mkdir when a proper prefix
     * is the file, from the second when `base_dir` itself is. Otherwise both
     * paths exist afterwards, and existing directories are left as they
     * were. A regular file named `playlists` is left in place.
     */
    method EnsureOutputDirs(fs: FileSystem) returns (r: Result<()>)
      requires fs.Valid()
      modifies fs
      ensures fs.Valid()
      ensures fs.files == old(fs.files)
      ensures r.Err? <==> old(fs.Blocked(baseDir))
      ensures r.Err? ==> r == Err(NotADirectoryError(if old(fs.Exists(baseDir)) then PlaylistsDirPath() else baseDir))
      ensures r.Ok? ==> fs.Exists(baseDir) && fs.Exists(PlaylistsDirPath())
      ensures r.Ok? && PlaylistsDirPath() !in fs.files ==> fs.IsDir(baseDir) && fs.IsDir(PlaylistsDirPath())
      ensures r.Ok? && !old(fs.Exists(PlaylistsDirPath())) ==> fs.dirs == old(fs.dirs) + Ancestors(PlaylistsDirPath())
      ensures r.Err? || old(fs.Exists(PlaylistsDirPath())) ==> fs.dirs == old(fs.dirs)
    {
      var playlistsDir := PlaylistsDirPath();
      fs.BlockedChild(baseDir, PLAYLISTS_DIRNAME);
      if fs.Exists(playlistsDir) {
        fs.DirNotBlocked(baseDir);
        return Ok(());
      }
      if !fs.Exists(baseDir) {
        r := fs.MakeDirs(baseDir);
        if r.Err? {
          return;
        }
        assert Ancestors(baseDir) <= Ancestors(playlistsDir) by {
          forall q | q in Ancestors(baseDir)
            ensures q in Ancestors(playlistsDir)
          {
            var i :| 1 <= i <= |baseDir| && q == baseDir[..i];
            assert q == playlistsDir[..i];
          }
        }
        fs.BlockedChild(baseDir, PLAYLISTS_DIRNAME);
      } else if baseDir in fs.dirs {
        fs.DirNotBlocked(baseDir);
      } else {
        assert baseDir[..|baseDir|] == baseDir;
        assert Parent(playlistsDir) == baseDir;
      }
      r := fs.MakeDirs(playlistsDir);
    }
  }

  /** The class attribute `SpotifySnapshotOutputManager._instance`. */
  class ManagerRegistry {
    var instance: SnapshotOutputManager?

    constructor ()
      ensures instance == null
    {
      instance := null;
    }

    /**
     * `SpotifySnapshotOutputManager(base_dir)`: refused with RuntimeError
     * while an instance is registered; otherwise a new manager whose output
     * directories are created. The constructor does not register it.
     */
    method Construct(fs: FileSystem, baseDir: Path) returns (r: Result<SnapshotOutputManager>)
      requires fs.Valid()
      modifies fs
      ensures fs.Valid() && fs.files == old(fs.files)
      ensures old(instance) != null ==> r.Err? && r.error.RuntimeError? && fs.dirs == old(fs.dirs)
      ensures r.Ok? ==> old(instance) == null && fresh(r.value) && r.value.baseDir == baseDir
      ensures old(instance) == null ==> (r.Err? <==> old(fs.Blocked(baseDir)))
      ensures old(instance) == null && r.Err? ==>
        r == Err(NotADirectoryError(if old(fs.Exists(baseDir)) then baseDir + [PLAYLISTS_DIRNAME] else baseDir))
      ensures r.Ok? ==> fs.Exists(baseDir) && fs.Exists(baseDir + [PLAYLISTS_DIRNAME])
    {
      if instance != null {
        return Err(RuntimeError("Use SpotifySnapshotOutputManager.initialize() or get_instance()"));
      }
      var m := new SnapshotOutputManager(baseDir);
      var made := m.EnsureOutputDirs(fs);
      if made.Err? {
        return Err(made.error);
      }
      r := Ok(m);
    }

    /**
     * `initialize(base_dir)`: creates and registers a manager only when none
     * is registered; otherwise returns the registered one and ignores `base_dir`.
     */
    method Initialize(fs: FileSystem, baseDir: Path) returns (r: Result<SnapshotOutputManager>)
      requires fs.Valid()
      modifies this, fs
      ensures fs.Valid() && fs.files == old(fs.files)
      ensures old(instance) != null ==> r == Ok(old(instance)) && instance == old(instance) && fs.dirs == old(fs.dirs)
      ensures old(instance) == null && r.Ok? ==> instance == r.value && r.value.baseDir == baseDir && fresh(r.value)
      ensures old(instance) == null ==> (r.Err? <==> old(fs.Blocked(baseDir)))
      ensures old(instance) == null && r.Err? ==>
        r == Err(NotADirectoryError(if old(fs.Exists(baseDir)) then baseDir + [PLAYLISTS_DIRNAME] else baseDir))
      ensures old(instance) == null && r.Ok? ==> fs.Exists(baseDir) && fs.Exists(baseDir + [PLAYLISTS_DIRNAME])
      ensures r.Err? ==> instance == old(instance)
    {
      if instance == null {
        r := Construct(fs, baseDir);
        if r.Ok? {
          instance := r.value;
        }
      } else {
        r := Ok(instance);
      }
    }

    /** `get_instance()`: RuntimeError until `initialize` has registered a manager. */
    method GetInstance() returns (r: Result<SnapshotOutputManager>)
      ensures r.Ok? <==> instance != null
      ensures r.Ok? ==> r.value == instance
      ensures r.Err? ==> r == Err(NOT_INITIALIZED)
    {
      if instance == null {
        return Err(NOT_INITIALIZED);
      }
      r := Ok(instance);
    }
  }

  /** Once registered, later `initialize` calls keep returning the first manager, whatever base directory they pass. */
  method InitializeTwice(fs: FileSystem, first: Path, second: Path)
    returns (a: Result<SnapshotOutputManager>, b: Result<SnapshotOutputManager>, c: Result<SnapshotOutputManager>)
    requires fs.Valid()
    modifies fs
    ensures a.Ok? ==> b == a && b.value.baseDir == first
    ensures a.Ok? ==> c.Err? && c.error.RuntimeError?
  {
    var registry := new ManagerRegistry();
    a := registry.Initialize(fs, first);
    b, c := a, a;
    if a.Ok? {
      b := registry.Initialize(fs, second);
      c := registry.Construct(fs, second);
    }
  }

  /** The output paths are pairwise distinct, and a playlist file never collides with them. */
  lemma OutputPathsDistinct(m: SnapshotOutputManager, trackFile: string)
    ensures m.LikedSongsPath() != m.AlbumsPath()
    ensures m.LikedSongsPath() != m.PlaylistsIndexPath()
    ensures m.AlbumsPath() != m.PlaylistsIndexPath()
    ensures m.PlaylistsDirPath() + [trackFile] !in {m.LikedSongsPath(), m.AlbumsPath(), m.PlaylistsIndexPath()}
  {
    var n := |m.baseDir|;
    assert m.LikedSongsPath()[n] != m.AlbumsPath()[n];
    assert m.LikedSongsPath()[n] != m.PlaylistsIndexPath()[n];
    assert m.AlbumsPath()[n] != m.PlaylistsIndexPath()[n];
  }
}
