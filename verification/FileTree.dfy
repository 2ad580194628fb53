/** The file tree as the controller walks it: paths as lists of names, and what a walk with a bounded work list knows
    about the directories it has found and scanned. */
module FileTree {
  const MAX_DIRECTORIES: nat := 10
  const MAX_FILES: nat := 32
  const MAX_NAME: nat := 30
  const MAX_PATH: nat := 100

  type Name = string

  type Path = seq<Name>

  const MOUNT: Path := ["lfs"]

  datatype Entry = File(size: nat) | Folder

  type Tree = map<Path, Entry>

  datatype FileInfo = FileInfo(name: Name, path: Path, size: nat)

  function Parent(p: Path): Path
    requires p != []
  {
    p[..|p| - 1]
  }

  function Last(p: Path): Name
    requires p != []
  {
    p[|p| - 1]
  }

  /** Characters of the path as written, one slash before each name. */
  function PathLength(p: Path): nat {
    if p == [] then 0 else PathLength(Parent(p)) + 1 + |Last(p)|
  }

  /** The path as written. */
  function Text(p: Path): string {
    if p == [] then "" else Text(Parent(p)) + "/" + Last(p)
  }

  lemma {:induction false} TextLength(p: Path)
    ensures |Text(p)| == PathLength(p)
  {
    if p != [] {
      TextLength(Parent(p));
    }
  }

  predicate IsDot(n: Name) { n == "." || n == ".." }

  /** Every entry but the mount point is in a directory, under a name of its own. */
  ghost predicate Sound(t: Tree) {
    && MOUNT in t && t[MOUNT].Folder?
    && forall p <- t ::
         p != [] && Last(p) != "" && !IsDot(Last(p)) && (p != MOUNT ==> Parent(p) in t && t[Parent(p)].Folder?)
  }

  ghost function Dirs(t: Tree, root: Path): set<Path> { set p | p in t && root <= p && t[p].Folder? }

  ghost function Files(t: Tree, root: Path): set<Path> { set p | p in t && root <= p && t[p].File? }

  /** What reading a directory yields, one name at a time: each child once, and perhaps the dot entries. */
  ghost predicate Enumerates(s: seq<Name>, t: Tree, p: Path) {
    && (forall i, j :: 0 <= i < j < |s| && s[i] == s[j] ==> IsDot(s[i]))
    && (forall n :: n in s && !IsDot(n) ==> p + [n] in t)
    && (forall n :: p + [n] in t ==> n in s)
  }

  type Listing = (Tree, Path) -> seq<Name>

  /** A file system may list a directory in any order, and in another one after every change. */
  ghost predicate Lists(listing: Listing) {
    forall t: Tree, p: Path :: Sound(t) && p in t && t[p].Folder? ==> Enumerates(listing(t, p), t, p)
  }

  function InfoOf(t: Tree, p: Path): FileInfo
    requires p in t && t[p].File? && p != []
  {
    FileInfo(Last(p), p, t[p].size)
  }

  /** Every file below `root` exactly once, with its name, path and size. */
  ghost predicate CatalogOf(catalog: seq<FileInfo>, t: Tree, root: Path) {
    && (forall i, j :: 0 <= i < j < |catalog| ==> catalog[i].path != catalog[j].path)
    && (forall e <- catalog :: e.path in Files(t, root) && e.path != [] && e == InfoOf(t, e.path))
    && (forall p <- Files(t, root) :: exists e <- catalog :: e.path == p)
  }

  /** What the catalog has room for. */
  ghost predicate Fits(t: Tree, root: Path) {
    && |Dirs(t, root)| <= MAX_DIRECTORIES && |Files(t, root)| <= MAX_FILES
    && (forall p <- t :: root <= p && p != root ==> PathLength(p) < MAX_PATH)
    && (forall p <- Files(t, root) :: p != [] ==> |Last(p)| < MAX_NAME)
  }

  /** What a recursive delete has room for. */
  ghost predicate DirectoriesFit(t: Tree, root: Path) {
    && |Dirs(t, root)| <= MAX_DIRECTORIES
    && (forall p <- Dirs(t, root) :: p != root ==> PathLength(p) < MAX_PATH)
  }

  ghost predicate FilePathsFit(t: Tree, root: Path) {
    forall p <- Files(t, root) :: PathLength(p) < MAX_PATH
  }

  // ---- walks ----

  /** All of `found` are directories below `root`, reached through scanned ones, and `scanned` ones have all their
      subdirectories found. */
  ghost predicate Walked(t: Tree, root: Path, found: set<Path>, scanned: set<Path>) {
    && root in found && scanned <= found && found <= Dirs(t, root)
    && (forall d <- found :: d != root ==> d != [] && Parent(d) in scanned)
    && (forall d <- scanned, n: Name :: d + [n] in Dirs(t, root) ==> d + [n] in found)
  }

  /** In the middle of scanning `here`: the names in `seen` have been read. */
  ghost predicate Walking(t: Tree, root: Path, found: set<Path>, scanned: set<Path>, here: Path, seen: seq<Name>) {
    && root in found && scanned <= found && found <= Dirs(t, root)
    && here in found && here !in scanned
    && (forall d <- found :: d != root ==> d != [] && (Parent(d) in scanned || (Parent(d) == here && Last(d) in seen)))
    && (forall d <- scanned, n: Name :: d + [n] in Dirs(t, root) ==> d + [n] in found)
    && (forall n <- seen :: here + [n] in Dirs(t, root) ==> here + [n] in found)
  }

  lemma BeginScan(t: Tree, root: Path, found: set<Path>, scanned: set<Path>, here: Path)
    requires Walked(t, root, found, scanned) && here in found && here !in scanned
    ensures Walking(t, root, found, scanned, here, [])
  {
  }

  lemma EndScan(t: Tree, root: Path, found: set<Path>, scanned: set<Path>, here: Path, seen: seq<Name>)
    requires Walking(t, root, found, scanned, here, seen) && Enumerates(seen, t, here)
    ensures Walked(t, root, found, scanned + {here})
  {
    assert forall n: Name :: here + [n] in Dirs(t, root) ==> here + [n] in t && n in seen;
  }

  /** A name that is not a subdirectory changes nothing. */
  lemma SkipName(t: Tree, root: Path, found: set<Path>, scanned: set<Path>, here: Path, seen: seq<Name>, n: Name)
    requires Walking(t, root, found, scanned, here, seen) && here + [n] !in Dirs(t, root)
    ensures Walking(t, root, found, scanned, here, seen + [n])
  {
  }

  /** A subdirectory read for the first time is new, and can be added. */
  lemma AddDirectory(t: Tree, root: Path, found: set<Path>, scanned: set<Path>, here: Path, seen: seq<Name>, n: Name)
    requires Walking(t, root, found, scanned, here, seen) && n !in seen && here + [n] in Dirs(t, root)
    ensures here + [n] !in found && here + [n] in Dirs(t, root)
    ensures Walking(t, root, found + {here + [n]}, scanned, here, seen + [n])
  {
    var child := here + [n];
    assert Parent(child) == here && Last(child) == n;
    assert root <= here && |child| > |root|;
  }

  lemma BelowRoot(t: Tree, root: Path, p: Path)
    requires p in Dirs(t, root)
    ensures p in t && root <= p
  {
  }

  lemma RootFound(t: Tree, root: Path, found: set<Path>)
    requires Walked(t, root, found, found)
    ensures root in found
  {
  }

  lemma ChildFound(t: Tree, root: Path, found: set<Path>, d: Path, n: Name)
    requires Walked(t, root, found, found) && d in found && d + [n] in Dirs(t, root)
    ensures d + [n] in found
  {
    hide Dirs;
  }

  lemma FoundBelow(t: Tree, root: Path, found: set<Path>, p: Path)
    requires Walked(t, root, found, found) && p != [] && Parent(p) in found && p in Dirs(t, root)
    ensures p in found
  {
    hide Walked, Dirs;
    assert Parent(p) + [Last(p)] == p;
    ChildFound(t, root, found, Parent(p), Last(p));
  }

  lemma ParentBelow(t: Tree, root: Path, p: Path)
    requires Sound(t) && p in t && root <= p && p != root && root != [] && MOUNT <= root
    ensures p != [] && Parent(p) in Dirs(t, root)
  {
    assert |p| > |root|;
    assert p != MOUNT;
    assert root <= Parent(p);
  }

  lemma {:induction false} Reached(t: Tree, root: Path, found: set<Path>, p: Path)
    requires Walked(t, root, found, found) && Sound(t) && root != [] && MOUNT <= root && p in Dirs(t, root)
    ensures p in found
    decreases |p|
  {
    hide Walked, Sound, Dirs;
    if p == root {
      RootFound(t, root, found);
    } else {
      BelowRoot(t, root, p);
      ParentBelow(t, root, p);
      Reached(t, root, found, Parent(p));
      FoundBelow(t, root, found, p);
    }
  }

  /** When nothing is left to scan, every directory has been found. */
  lemma WalkComplete(t: Tree, root: Path, found: set<Path>)
    requires Walked(t, root, found, found) && Sound(t) && root != [] && MOUNT <= root
    ensures found == Dirs(t, root)
  {
    forall p | p in Dirs(t, root)
      ensures p in found
    {
      Reached(t, root, found, p);
    }
  }

  lemma NextName(names: seq<Name>, t: Tree, here: Path, j: nat)
    requires Enumerates(names, t, here) && Sound(t) && j < |names|
    ensures names[..j + 1] == names[..j] + [names[j]]
    ensures if IsDot(names[j]) then here + [names[j]] !in t else names[j] !in names[..j] && here + [names[j]] in t
  {
    var n := names[j];
    assert n in names && Last(here + [n]) == n;
  }

  // ---- counting ----

  lemma {:induction false} SubsetCount<T>(a: set<T>, b: set<T>)
    requires a <= b
    ensures |a| <= |b| && (|a| == |b| ==> a == b)
    decreases |a|
  {
    if a != {} {
      var x :| x in a;
      SubsetCount(a - {x}, b - {x});
      assert a == (a - {x}) + {x} && b == (b - {x}) + {x};
    } else if |b| == 0 {
      assert b == {};
    }
  }

  ghost predicate Distinct<T>(s: seq<T>) { forall i, j :: 0 <= i < j < |s| ==> s[i] != s[j] }

  ghost function Elements<T>(s: seq<T>): set<T> { set x | x in s }

  lemma {:induction false} DistinctCount<T>(s: seq<T>)
    requires Distinct(s)
    ensures |Elements(s)| == |s|
  {
    if s == [] {
    } else {
      var n := |s| - 1;
      DistinctCount(s[..n]);
      assert Elements(s) == Elements(s[..n]) + {s[n]};
    }
  }

  lemma ElementsSnoc<T>(s: seq<T>, x: T)
    ensures Elements(s + [x]) == Elements(s) + {x}
  {
  }
}
