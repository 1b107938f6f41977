/**
 * The part of the file system the snapshot code touches: directories and
 * text files under the working directory. A path is the sequence of its
 * parts, as pathlib's `Path.parts`; `[]` is the working directory itself.
 * A file's content is the list of its lines.
 */
module FileTree {
  import opened Wrappers

  type Path = seq<string>

  /** `path.parent` (the working directory is its own parent). */
  function Parent(p: Path): (r: Path)
    ensures |p| > 0 ==> p == r + [p[|p| - 1]]
  {
    if |p| == 0 then [] else p[..|p| - 1]
  }

  /** The directories `mkdir(parents=True)` creates for `p`: every non-empty prefix of it. */
  function Ancestors(p: Path): (r: set<Path>)
    ensures p != [] ==> p in r
    ensures forall q :: q in r ==> q != [] && q <= p
  {
    assert p != [] ==> p[..|p|] == p;
    set i | 1 <= i <= |p| :: p[..i]
  }

  /** `open(p, "w")` succeeds in a tree with directories `dirs`: `p` is not a directory and its parent is one. */
  predicate CanWriteIn(dirs: set<Path>, p: Path)
  {
    p != [] && p !in dirs && Parent(p) in dirs
  }

  /** Some prefix of `p` (`p` itself included) is a regular file among `files`, so no directory `p` can be made. */
  predicate BlockedIn(files: map<Path, seq<string>>, p: Path)
  {
    exists i :: 1 <= i <= |p| && p[..i] in files
  }

  /**
   * What `p.mkdir(parents=True, exist_ok=True)` and `os.makedirs(p,
   * exist_ok=True)` raise for a blocked `p`: FileExistsError when `p` itself is
   * a regular file, NotADirectoryError when the file is a proper prefix.
   */
  function MakeDirsError(files: map<Path, seq<string>>, p: Path): PyError
  {
    if p in files then FileExistsError(p) else NotADirectoryError(p)
  }

  /**
   * What `open(p)` raises when it cannot open `p`: IsADirectoryError on a
   * directory, NotADirectoryError when a proper prefix of `p` is a regular
   * file, FileNotFoundError when a directory on the way is missing.
   */
  function OpenError(dirs: set<Path>, files: map<Path, seq<string>>, p: Path): PyError
  {
    if p in dirs then IsADirectoryError(p)
    else if p != [] && BlockedIn(files, Parent(p)) then NotADirectoryError(p)
    else FileNotFoundError(p)
  }

  /** `open(p).read().splitlines()` in a tree with directories `dirs` and files `files`. */
  function ReadIn(dirs: set<Path>, files: map<Path, seq<string>>, p: Path): (r: Result<seq<string>>)
    ensures r.Ok? <==> p in files
    ensures r.Ok? ==> r.value == files[p]
    ensures r.Err? ==> (r.error.IsADirectoryError? <==> p in dirs)
    ensures r.Err? ==> (r.error.NotADirectoryError? <==> p != [] && BlockedIn(files, Parent(p)) && p !in dirs)
  {
    if p in files then Ok(files[p]) else Err(OpenError(dirs, files, p))
  }

  class FileSystem {
    var dirs: set<Path>
    var files: map<Path, seq<string>>

    /** A tree: the working directory exists, nothing is both a file and a directory, every entry's parent is a directory. */
    ghost predicate Valid()
      reads this
    {
      && [] in dirs
      && (forall d :: d in dirs ==> d !in files)
      && (forall d :: d in dirs && d != [] ==> Parent(d) in dirs)
      && (forall f :: f in files ==> f != [] && Parent(f) in dirs)
    }

    constructor ()
      ensures Valid() && dirs == {[]} && files == map[]
    {
      dirs := {[]};
      files := map[];
    }

    /** `path.exists()`. */
    predicate Exists(p: Path)
      reads this
    {
      p in dirs || p in files
    }

    predicate IsDir(p: Path)
      reads this
    {
      p in dirs
    }

    /** `open(p, "w")` succeeds. */
    predicate CanWrite(p: Path)
      reads this
    {
      CanWriteIn(dirs, p)
    }

    /** Every directory's ancestors are directories too. */
    lemma AncestorsOfDir(d: Path)
      requires Valid() && d in dirs
      ensures Ancestors(d) <= dirs
      decreases |d|
    {
      if d != [] {
        AncestorsOfDir(Parent(d));
        forall q | q in Ancestors(d)
          ensures q in dirs
        {
          if q != d {
            var i :| 1 <= i <= |d| && q == d[..i];
            assert i < |d|;
            assert q == Parent(d)[..i];
          }
        }
      }
    }

    /** No directory `p` can be made here (`BlockedIn`). */
    predicate Blocked(p: Path)
      reads this
    {
      BlockedIn(files, p)
    }

    /** A path one part longer is blocked by the same prefixes, or by being a file itself. */
    lemma BlockedChild(p: Path, name: string)
      ensures Blocked(p + [name]) <==> Blocked(p) || p + [name] in files
    {
      var c := p + [name];
      assert forall i :: 1 <= i <= |p| ==> c[..i] == p[..i];
      assert c[..|c|] == c;
      if Blocked(c) {
        var i :| 1 <= i <= |c| && c[..i] in files;
        assert i <= |p| || c[..i] == c;
      }
    }

    /** A directory is never blocked: all of its prefixes are directories. */
    lemma DirNotBlocked(d: Path)
      requires Valid() && d in dirs
      ensures !Blocked(d)
    {
      AncestorsOfDir(d);
      forall i | 1 <= i <= |d|
        ensures d[..i] !in files
      {
        assert d[..i] in Ancestors(d);
      }
    }

    /**
     * A blocked path is blocked either by being a file itself or by a file
     * among its proper prefixes, never both: the two errors of `MakeDirsError`.
     */
    lemma BlockedByItselfOrPrefix(p: Path)
      requires Valid() && Blocked(p)
      ensures p in files <==> !exists i :: 1 <= i < |p| && p[..i] in files
    {
      if p in files {
        AncestorsOfDir(Parent(p));
        forall i | 1 <= i < |p|
          ensures p[..i] !in files
        {
          assert p[..i] == Parent(p)[..i];
          assert p[..i] in Ancestors(Parent(p));
        }
      } else {
        var i :| 1 <= i <= |p| && p[..i] in files;
        assert p[..|p|] == p;
      }
    }

    /** `p.mkdir(parents=True, exist_ok=True)` and `os.makedirs(p, exist_ok=True)`. */
    method MakeDirs(p: Path) returns (r: Result<()>)
      requires Valid()
      modifies this
      ensures Valid()
      ensures r.Ok? <==> !old(Blocked(p))
      ensures r.Ok? ==> dirs == old(dirs) + Ancestors(p) && files == old(files)
      ensures r.Err? ==> r == Err(MakeDirsError(old(files), p)) && dirs == old(dirs) && files == old(files)
    {
      if Blocked(p) {
        r := Err(MakeDirsError(files, p));
      } else {
        forall q | q in Ancestors(p) && q != []
          ensures Parent(q) in dirs + Ancestors(p)
        {
          var i :| 1 <= i <= |p| && q == p[..i];
          if i > 1 {
            assert Parent(q) == p[..i - 1];
          }
        }
        dirs := dirs + Ancestors(p);
        r := Ok(());
      }
    }

    /** `open(p, "w")` followed by writing `lines`. */
    method WriteLines(p: Path, lines: seq<string>) returns (r: Result<()>)
      requires Valid()
      modifies this
      ensures Valid()
      ensures r.Ok? <==> old(CanWrite(p))
      ensures r.Ok? ==> files == old(files)[p := lines] && dirs == old(dirs)
      ensures r.Err? ==> r == Err(OpenError(old(dirs), old(files), p)) && files == old(files) && dirs == old(dirs)
    {
      if p in dirs {
        r := Err(IsADirectoryError(p));
      } else if p != [] && BlockedIn(files, Parent(p)) {
        if Parent(p) in dirs {
          DirNotBlocked(Parent(p));
        }
        r := Err(NotADirectoryError(p));
      } else if p == [] || Parent(p) !in dirs {
        r := Err(FileNotFoundError(p));
      } else {
        files := files[p := lines];
        r := Ok(());
      }
    }

    /** `os.remove(p)`. */
    method Remove(p: Path) returns (r: Result<()>)
      requires Valid()
      modifies this
      ensures Valid()
      ensures r.Ok? <==> old(p in files)
      ensures r.Ok? ==> files == old(files) - {p} && dirs == old(dirs)
      ensures r.Err? ==> files == old(files) && dirs == old(dirs)
    {
      if p in files {
        files := files - {p};
        r := Ok(());
      } else if p in dirs {
        r := Err(IsADirectoryError(p));
      } else {
        r := Err(FileNotFoundError(p));
      }
    }
  }
}
