/**
 * The part of the local file system the scripts touch: a tree of directories,
 * each with the names it lists (files and sub-directories alike), in listing order.
 * A directory is known by its path components, `["downloads", "alice", "images"]`
 * for `downloads/alice/images`; the empty path is the working directory.
 */
module Files {
  import opened Text

  type Path = seq<string>

  /** Each existing directory and the names `os.listdir` gives for it. */
  type Tree = map<Path, seq<string>>

  /** `os.listdir(d)` of an existing directory. */
  function Entries(tree: Tree, d: Path): seq<string> {
    if d in tree then tree[d] else []
  }

  /** The path as a string: components joined by '/'. */
  function PathStr(p: Path): string {
    JoinWith(p, '/')
  }

  /** `os.path.join(a, b)` on POSIX. */
  function PathJoin(a: string, b: string): string {
    if |b| >= 1 && b[0] == '/' then b
    else if a == [] || a[|a| - 1] == '/' then a + b
    else a + "/" + b
  }

  /** Joining a relative name to a directory that does not end in '/' puts one '/' between them. */
  lemma JoinPlain(a: string, b: string)
    requires a != [] && a[|a| - 1] != '/'
    requires b != [] && b[0] != '/'
    ensures PathJoin(a, b) == a + "/" + b
  {
  }

  /** A listing after the name `name` is created in it: a name is listed once. */
  function AddEntry(listing: seq<string>, name: string): seq<string> {
    if name in listing then listing else listing + [name]
  }

  function AddEntries(listing: seq<string>, names: seq<string>): seq<string>
    decreases |names|
  {
    if names == [] then listing else AddEntries(AddEntry(listing, names[0]), names[1..])
  }

  /** Creating names in a directory keeps its listing as a prefix, lists every new name, and lists nothing else. */
  lemma {:induction false} AddEntriesLists(listing: seq<string>, names: seq<string>)
    ensures listing <= AddEntries(listing, names)
    ensures forall n :: n in names ==> n in AddEntries(listing, names)
    ensures forall n :: n in AddEntries(listing, names) ==> n in listing || n in names
    decreases |names|
  {
    if names != [] {
      var next := AddEntry(listing, names[0]);
      assert listing <= next && names[0] in next;
      assert forall n :: n in next ==> n in listing || n == names[0];
      AddEntriesLists(next, names[1..]);
      assert forall n :: n in names ==> n == names[0] || n in names[1..];
    }
  }

  /** A download step: files `names` are written into directory `d`. */
  function Store(tree: Tree, d: Path, names: seq<string>): Tree {
    tree[d := AddEntries(Entries(tree, d), names)]
  }

  /**
   * A download step keeps every directory and every listing as a prefix of the
   * new one, and every written file is listed in `d`.
   */
  lemma StoreKeepsListings(tree: Tree, d: Path, names: seq<string>)
    ensures forall e :: e in tree ==> e in Store(tree, d, names)
    ensures forall e :: Entries(tree, e) <= Entries(Store(tree, d, names), e)
    ensures forall n :: n in names ==> n in Entries(Store(tree, d, names), d)
  {
    AddEntriesLists(Entries(tree, d), names);
  }

  /**
   * `os.makedirs(p)` guarded by `os.path.exists(p)`, and equally
   * `Path(p).mkdir(parents=True, exist_ok=True)`: every missing ancestor and
   * `p` itself are created, each listed in its parent; an existing `p` is left as it is.
   */
  function MakeDirs(tree: Tree, p: Path): Tree
    decreases |p|
  {
    if p == [] || p in tree then tree
    else
      var parent := p[..|p| - 1];
      var up := MakeDirs(tree, parent);
      up[p := []][parent := AddEntry(Entries(up, parent), p[|p| - 1])]
  }

  /**
   * After `makedirs(p)`, `p` exists; every directory that existed still does,
   * its listing extended at most; and every new directory is `p` or one of its ancestors.
   */
  lemma {:induction false} MakeDirsCreates(tree: Tree, p: Path)
    ensures p == [] || p in MakeDirs(tree, p)
    ensures forall e :: e in tree ==> e in MakeDirs(tree, p) && tree[e] <= MakeDirs(tree, p)[e]
    ensures forall e :: e in MakeDirs(tree, p) && e !in tree ==> e <= p
    decreases |p|
  {
    if p != [] && p !in tree {
      var parent := p[..|p| - 1];
      MakeDirsCreates(tree, parent);
    }
  }

  /** Creating a directory that exists leaves the tree as it is. */
  lemma MakeDirsExisting(tree: Tree, p: Path)
    requires p in tree
    ensures MakeDirs(tree, p) == tree
  {
  }

  /** Creating a directory twice is the same as creating it once. */
  lemma MakeDirsIdempotent(tree: Tree, p: Path)
    ensures MakeDirs(MakeDirs(tree, p), p) == MakeDirs(tree, p)
  {
    MakeDirsCreates(tree, p);
    if p != [] {
      MakeDirsExisting(MakeDirs(tree, p), p);
    }
  }
}
