/**
 * The part of a POSIX filesystem the generator touches: regular files with
 * text content and directories, addressed by resolved absolute paths.
 * `Path.mkdir(parents=True, exist_ok=True)` and `Path.write_text` are
 * specified on a `Disk` value; the `FileSystem` class holds the mutable
 * state and its methods follow those specifications.
 */
module FileTree {
  import opened Results
  import opened Paths

  datatype Disk = Disk(files: map<Path, string>, dirs: set<Path>)

  /** The errors `mkdir` and `open(..., "w")` raise. */
  datatype FsError =
    | FileExists(path: Path)        // mkdir on an existing file
    | NotADirectory(path: Path)     // a proper ancestor is a file
    | IsADirectory(path: Path)      // writing where a directory is
    | NoParent(path: Path)          // writing where the parent is missing

  /**
   * A well-formed tree: the root is a directory, every other directory and
   * every file hangs off a directory, and nothing is both a file and a
   * directory.
   */
  predicate Valid(d: Disk) {
    && [] in d.dirs
    && (forall p :: p in d.dirs && p != [] ==> Parent(p) in d.dirs)
    && (forall p :: p in d.files ==> p != [] && Parent(p) in d.dirs)
    && (forall p :: p in d.files ==> p !in d.dirs)
  }

  /** `p.exists()`. */
  predicate Exists(d: Disk, p: Path) {
    p in d.files || p in d.dirs
  }

  /** `p` and every directory above it. */
  function Ancestors(p: Path): (r: set<Path>)
    ensures forall k :: 0 <= k <= |p| ==> p[..k] in r
    ensures forall q :: q in r ==> Within(p, q)
  {
    set k | 0 <= k <= |p| :: p[..k]
  }

  /** Some proper ancestor of `p` is a regular file. */
  predicate FileAbove(d: Disk, p: Path) {
    exists k :: 0 <= k < |p| && p[..k] in d.files
  }

  /**
   * `p.mkdir(parents=True, exist_ok=True)`: fails when `p` is a file or a
   * file lies on the way to it, and otherwise makes `p` and every missing
   * directory above it. A failure creates nothing: the missing directories
   * are only made once the walk up has found an existing directory.
   */
  function MakeDirsResult(d: Disk, p: Path): (r: Result<Disk, FsError>)
    ensures r.Ok? <==> p !in d.files && !FileAbove(d, p)
    ensures r.Ok? ==> r.value.files == d.files && r.value.dirs == d.dirs + Ancestors(p)
  {
    if p in d.files then Err(FileExists(p))
    else if FileAbove(d, p) then Err(NotADirectory(p))
    else Ok(Disk(d.files, d.dirs + Ancestors(p)))
  }

  /**
   * `p.write_text(c)`: truncates or creates the file `p`; fails when `p` is
   * a directory (the root included) or its parent directory is missing.
   */
  function WriteTextResult(d: Disk, p: Path, c: string): (r: Result<Disk, FsError>)
    ensures r.Ok? <==> p != [] && p !in d.dirs && Parent(p) in d.dirs
    ensures r.Ok? ==> r.value == Disk(d.files[p := c], d.dirs)
  {
    if p == [] || p in d.dirs then Err(IsADirectory(p))
    else if Parent(p) !in d.dirs then Err(NoParent(p))
    else Ok(Disk(d.files[p := c], d.dirs))
  }

  lemma AncestorsParent(p: Path, q: Path)
    requires q in Ancestors(p) && q != []
    ensures Parent(q) in Ancestors(p)
  {
    var k :| 0 <= k <= |p| && q == p[..k];
    assert Parent(q) == p[..k - 1];
  }

  /** `mkdir` keeps the tree well formed. */
  lemma MakeDirsValid(d: Disk, p: Path)
    requires Valid(d) && MakeDirsResult(d, p).Ok?
    ensures Valid(MakeDirsResult(d, p).value)
  {
    var e := MakeDirsResult(d, p).value;
    assert [] == p[..0];
    forall q | q in e.dirs && q != [] ensures Parent(q) in e.dirs {
      if q in Ancestors(p) { AncestorsParent(p, q); }
    }
    assert p[..|p|] == p;
    forall q | q in Ancestors(p) ensures q !in d.files {
      var k :| 0 <= k <= |p| && q == p[..k];
    }
  }

  /** `write_text` keeps the tree well formed. */
  lemma WriteTextValid(d: Disk, p: Path, c: string)
    requires Valid(d) && WriteTextResult(d, p, c).Ok?
    ensures Valid(WriteTextResult(d, p, c).value)
  {
  }

  /** In a well-formed tree nothing lies below a path that does not exist. */
  lemma NothingBelowMissing(d: Disk, p: Path, q: Path)
    requires Valid(d) && !Exists(d, p) && Within(q, p)
    ensures !Exists(d, q)
    decreases |q| - |p|
  {
    if |q| > |p| {
      NothingBelowMissing(d, p, Parent(q));
      assert Within(q, Parent(q));
    } else {
      assert q == p;
    }
  }

  /** The mutable filesystem the generator writes to. */
  class FileSystem {
    var files: map<Path, string>
    var dirs: set<Path>

    /** An empty filesystem: only the root directory. */
    constructor ()
      ensures Snapshot() == Disk(map[], {[]})
      ensures Valid(Snapshot())
    {
      files := map[];
      dirs := {[]};
    }

    function Snapshot(): Disk
      reads this
    {
      Disk(files, dirs)
    }

    /** `p.exists()`. */
    predicate PathExists(p: Path)
      reads this
    {
      Exists(Snapshot(), p)
    }

    /** `p.mkdir(parents=True, exist_ok=True)`; a failure changes nothing. */
    method MakeDirs(p: Path) returns (o: Outcome<FsError>)
      modifies this
      ensures o.Pass? <==> MakeDirsResult(old(Snapshot()), p).Ok?
      ensures o.Pass? ==> Snapshot() == MakeDirsResult(old(Snapshot()), p).value
      ensures o.Fail? ==> Snapshot() == old(Snapshot()) && o.error == MakeDirsResult(old(Snapshot()), p).error
    {
      if p in files {
        return Fail(FileExists(p));
      }
      if exists k :: 0 <= k < |p| && p[..k] in files {
        return Fail(NotADirectory(p));
      }
      dirs := dirs + Ancestors(p);
      return Pass;
    }

    /** `p.write_text(c)`; a failure changes nothing. */
    method WriteText(p: Path, c: string) returns (o: Outcome<FsError>)
      modifies this
      ensures o.Pass? <==> WriteTextResult(old(Snapshot()), p, c).Ok?
      ensures o.Pass? ==> Snapshot() == WriteTextResult(old(Snapshot()), p, c).value
      ensures o.Fail? ==> Snapshot() == old(Snapshot()) && o.error == WriteTextResult(old(Snapshot()), p, c).error
    {
      if p == [] || p in dirs {
        return Fail(IsADirectory(p));
      }
      if Parent(p) !in dirs {
        return Fail(NoParent(p));
      }
      files := files[p := c];
      return Pass;
    }
  }
}
