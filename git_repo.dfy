/**
 * The snapshots repository as spotify_snapshot/gitutils.py sees it: where it
 * lives (`get_repo_name`), the commits on its branch and the files its HEAD
 * commit records. The git engine itself (staging, diffs, rename detection,
 * stats) is not modelled; what the code reads from it is passed in.
 */
module GitRepos {
  import opened FileTree

  /** `Path("/tmp/SPOTIFY-VERSION-SNAPSHOTS-TEST-REPO")`, by parts; `"/"` marks the root. */
  const TEST_REPO: Path := ["/", "tmp", "SPOTIFY-VERSION-SNAPSHOTS-TEST-REPO"]
  /** `Path("spotify-snapshots-repo")`. */
  const REPO: Path := ["spotify-snapshots-repo"]

  /**
   * `get_repo_name`: `/tmp/SPOTIFY-VERSION-SNAPSHOTS-TEST-REPO` in test mode,
   * `spotify-snapshots-repo` otherwise; the first is absolute, the second
   * relative to the working directory.
   */
  function GetRepoName(isTestMode: bool): (p: Path)
    ensures p == (if isTestMode then TEST_REPO else REPO)
    ensures p != []
    ensures isTestMode ==> p[0] == "/"
    ensures !isTestMode ==> p[0] != "/"
  {
    if isTestMode then TEST_REPO else REPO
  }

  /** The two repositories never overlap: neither path is a prefix of the other. */
  lemma RepoNamesApart()
    ensures !(GetRepoName(true) <= GetRepoName(false)) && !(GetRepoName(false) <= GetRepoName(true))
  {
    assert GetRepoName(true)[0] != GetRepoName(false)[0];
  }

  /** The files of `files` strictly below `root`: the working tree of a repository at `root`. */
  function WorkTree(files: map<Path, seq<string>>, root: Path): (t: map<Path, seq<string>>)
    ensures forall p :: p in t <==> p in files && root < p
    ensures forall p :: p in t ==> t[p] == files[p]
  {
    map p | p in files && root < p :: files[p]
  }

  class Repo {
    /** The working directory of the repository. */
    const root: Path
    /** The messages of the commits on the branch, oldest first; the last is HEAD. */
    var messages: seq<string>
    /** The files the HEAD commit records. */
    var tree: map<Path, seq<string>>

    constructor (root: Path)
      ensures this.root == root && messages == [] && tree == map[]
    {
      this.root := root;
      messages := [];
      tree := map[];
    }

    /** `repo.head.commit` resolves (it raises ValueError on an unborn branch). */
    predicate HasHeadCommit()
      reads this
    {
      |messages| > 0
    }

    /** `repo.is_dirty(untracked_files=True)`: the working tree differs from HEAD, untracked files included. */
    predicate IsDirty(files: map<Path, seq<string>>)
      reads this
    {
      WorkTree(files, root) != tree
    }

    /** `repo.git.add(A=True)` then `repo.index.commit(message)`: HEAD becomes the working tree. */
    method CommitAll(files: map<Path, seq<string>>, message: string)
      modifies this
      ensures messages == old(messages) + [message]
      ensures tree == WorkTree(files, root)
      ensures !IsDirty(files)
    {
      messages := messages + [message];
      tree := WorkTree(files, root);
    }

    /** `repo.git.commit("--amend", "-m", message)`: HEAD keeps its files and takes the new message. */
    method Amend(message: string)
      requires HasHeadCommit()
      modifies this
      ensures messages == old(messages[..|messages| - 1]) + [message]
      ensures tree == old(tree)
    {
      messages := messages[..|messages| - 1] + [message];
    }
  }
}
