/** An abstract directory tree: the set of paths (directories and files, relative to the tree's
    root, separator `/`) that currently exist, with the three primitives the scripts call. */
module FileSystem {
  import opened Text

  /** One name that a walk of a directory (`os.walk`) reports: the directory it lies in, relative to the
      scanned base (`""` for the base itself), and the name itself. */
  datatype WalkEntry = WalkEntry(root: string, name: string)

  /** An entry as a walk produces it: the directory has no trailing `/` and the name is one
      non-empty path component. */
  predicate WellFormed(e: WalkEntry) {
    DirForm(e.root) && e.name != [] && '/' !in e.name
  }

  /** `os.path.relpath(os.path.join(root, name), base)` */
  function RelPath(e: WalkEntry): string {
    PathJoin(e.root, e.name)
  }

  /** `p` is `dir` itself or lies somewhere below it. */
  predicate Under(p: string, dir: string) {
    p == dir || StartsWith(p, dir + "/")
  }

  /** Where `p` ends up when `src` is moved to `dst`: `src` and everything below it travel. */
  function Relocate(p: string, src: string, dst: string): string {
    if Under(p, src) then dst + p[|src|..] else p
  }

  function Moved(paths: set<string>, src: string, dst: string): set<string> {
    set p | p in paths :: Relocate(p, src, dst)
  }

  /** The directory `d` and every directory above it: what `os.makedirs(d, exist_ok=True)`
      leaves existing. */
  function Ancestors(d: string): set<string> {
    set k | 0 < k <= |d| && (k == |d| || d[k] == '/') :: d[..k]
  }

  /** A path strictly below `dir` has more separators than `dir`. */
  lemma BelowIsDeeper(p: string, dir: string)
    requires StartsWith(p, dir + "/")
    ensures Count(p, '/') > Count(dir, '/')
  {
    var rest := p[|dir| + 1..];
    assert p == dir + "/" + rest;
    CountConcat(dir + "/", rest, '/');
    CountConcat(dir, "/", '/');
    assert Count("/", '/') == 1;
  }

  /** Moving `src` leaves in place every other path that is no deeper than `src`: the reason the
      scripts rename the deepest directories first. */
  lemma MoveSparesShallower(paths: set<string>, src: string, dst: string, p: string)
    requires p in paths && p != src && Count(p, '/') <= Count(src, '/')
    ensures p in Moved(paths, src, dst)
  {
    if StartsWith(p, src + "/") {
      BelowIsDeeper(p, src);
    }
    assert Relocate(p, src, dst) == p;
  }

  /** Once `src` has moved to `dst`, nothing is left below `src` (unless it lies below `dst`). */
  lemma MoveVacatesBelow(paths: set<string>, src: string, dst: string, f: string)
    requires StartsWith(f, src + "/") && !StartsWith(f, dst)
    ensures f !in Moved(paths, src, dst)
  {
    forall p | p in paths ensures Relocate(p, src, dst) != f {
      if Under(p, src) {
        var q := dst + p[|src|..];
        assert q[..|dst|] == dst;
      } else {
        assert !StartsWith(p, src + "/");
      }
    }
  }

  class FileTree {
    var paths: set<string>

    constructor (initial: set<string>)
      ensures paths == initial
    {
      paths := initial;
    }

    /** `os.path.exists` */
    method Exists(p: string) returns (b: bool)
      ensures b == (p in paths)
    {
      b := p in paths;
    }

    /** `os.makedirs(d, exist_ok=True)` */
    method MakeDirs(d: string)
      modifies this
      ensures paths == old(paths) + Ancestors(d)
    {
      paths := paths + Ancestors(d);
    }

    /** `shutil.move(src, dst)` for a source that exists. */
    method Move(src: string, dst: string)
      requires src in paths
      modifies this
      ensures paths == Moved(old(paths), src, dst)
      ensures dst in paths
    {
      assert Relocate(src, src, dst) == dst;
      paths := Moved(paths, src, dst);
    }

    /** `os.rename(src, dst)` inside `try`: it fails, and changes nothing, when `src` is gone. */
    method Rename(src: string, dst: string) returns (ok: bool)
      modifies this
      ensures ok == (src in old(paths))
      ensures paths == if ok then Moved(old(paths), src, dst) else old(paths)
    {
      ok := src in paths;
      if ok {
        paths := Moved(paths, src, dst);
      }
    }
  }
}
