/** What the recursive delete knows: first while it lists the directories of a tree, parents before children, then while
    it empties and removes them in the opposite order. */
module FileRemoval {
  import opened FileTree

  ghost predicate ParentsFirst(l: seq<Path>) { forall k :: 0 < k < |l| ==> l[k] != [] && Parent(l[k]) in l[..k] }

  ghost predicate ShortPaths(l: seq<Path>) { forall k :: 0 < k < |l| ==> PathLength(l[k]) < MAX_PATH }

  /** The first `i` listed directories have been scanned. */
  ghost predicate ScanBetween(t: Tree, root: Path, l: seq<Path>, i: nat) {
    && i <= |l| && l != [] && l[0] == root && Distinct(l) && ParentsFirst(l) && ShortPaths(l)
    && Walked(t, root, Elements(l), Elements(l[..i]))
  }

  ghost predicate ScanInside(t: Tree, root: Path, l: seq<Path>, i: nat, seen: seq<Name>) {
    && i < |l| && l[0] == root && Distinct(l) && ParentsFirst(l) && ShortPaths(l)
    && Walking(t, root, Elements(l), Elements(l[..i]), l[i], seen)
  }

  lemma ScanBegins(t: Tree, root: Path)
    requires root in t && t[root].Folder?
    ensures ScanBetween(t, root, [root], 0)
  {
  }

  lemma Below(t: Tree, root: Path, l: seq<Path>, i: nat)
    requires i <= |l| && Walked(t, root, Elements(l), Elements(l[..i]))
    ensures forall d <- l :: d in Dirs(t, root)
  {
    assert forall d <- l :: d in Elements(l);
  }

  lemma Enter(t: Tree, root: Path, l: seq<Path>, i: nat)
    requires ScanBetween(t, root, l, i) && i < |l|
    ensures ScanInside(t, root, l, i, []) && l[i] in Dirs(t, root)
  {
    hide Walked, Walking;
    assert l[i] !in l[..i];
    Below(t, root, l, i);
    BeginScan(t, root, Elements(l), Elements(l[..i]), l[i]);
  }

  lemma Leave(t: Tree, root: Path, l: seq<Path>, i: nat, names: seq<Name>)
    requires ScanInside(t, root, l, i, names) && Enumerates(names, t, l[i])
    ensures ScanBetween(t, root, l, i + 1)
  {
    hide Walked, Walking, Enumerates, Elements, Distinct, ParentsFirst, ShortPaths;
    EndScan(t, root, Elements(l), Elements(l[..i]), l[i], names);
    assert l[..i + 1] == l[..i] + [l[i]];
    ElementsSnoc(l[..i], l[i]);
  }

  lemma NotListed(t: Tree, root: Path, l: seq<Path>, i: nat, seen: seq<Name>, n: Name)
    requires ScanInside(t, root, l, i, seen) && (l[i] + [n] in t ==> t[l[i] + [n]].File?)
    ensures ScanInside(t, root, l, i, seen + [n])
  {
    hide Walking;
    SkipName(t, root, Elements(l), Elements(l[..i]), l[i], seen, n);
  }

  lemma ListGrows(l: seq<Path>, i: nat, child: Path)
    requires Distinct(l) && ParentsFirst(l) && ShortPaths(l) && i < |l|
    requires child != [] && Parent(child) == l[i] && child !in Elements(l)
    ensures Distinct(l + [child]) && ParentsFirst(l + [child])
    ensures PathLength(child) < MAX_PATH ==> ShortPaths(l + [child])
  {
    var m := l + [child];
    forall k | 0 < k < |m|
      ensures m[k] != [] && Parent(m[k]) in m[..k]
    {
      assert m[..k] == l[..k];
    }
  }

  lemma HereListed(t: Tree, root: Path, l: seq<Path>, i: nat, seen: seq<Name>)
    requires i < |l| && Walking(t, root, Elements(l), Elements(l[..i]), l[i], seen)
    ensures root <= l[i] && Elements(l) <= Dirs(t, root)
  {
  }

  /** A subdirectory read is new; it is listed after its parent if its path is short enough. */
  lemma Listed(t: Tree, root: Path, l: seq<Path>, i: nat, seen: seq<Name>, n: Name)
    requires ScanInside(t, root, l, i, seen) && n !in seen && l[i] + [n] in t && t[l[i] + [n]].Folder?
    ensures l[i] + [n] in Dirs(t, root) && l[i] + [n] != root && |Dirs(t, root)| > |l|
    ensures PathLength(l[i] + [n]) < MAX_PATH ==> ScanInside(t, root, l + [l[i] + [n]], i, seen + [n])
  {
    hide Walked, Walking, PathLength, ParentsFirst, Distinct, Elements, ShortPaths;
    var child := l[i] + [n];
    HereListed(t, root, l, i, seen);
    assert child in Dirs(t, root) && |child| > |root|;
    AddDirectory(t, root, Elements(l), Elements(l[..i]), l[i], seen, n);
    SubsetCount(Elements(l) + {child}, Dirs(t, root));
    DistinctCount(l);
    ElementsSnoc(l, child);
    assert (l + [child])[..i] == l[..i];
    ListGrows(l, i, child);
  }

  /** A scan that reached the end of its list has listed every directory. */
  lemma ScanEnds(t: Tree, root: Path, l: seq<Path>)
    requires ScanBetween(t, root, l, |l|) && Sound(t) && MOUNT <= root
    ensures Elements(l) == Dirs(t, root) && |l| == |Dirs(t, root)|
    ensures |l| <= MAX_DIRECTORIES ==> DirectoriesFit(t, root)
  {
    hide Walked, Sound;
    assert l[..|l|] == l;
    WalkComplete(t, root, Elements(l));
    DistinctCount(l);
    forall p | p in Dirs(t, root) && p != root
      ensures PathLength(p) < MAX_PATH
    {
      assert p in l;
    }
  }

  // ---- removal ----

  ghost function Children(t: Tree, d: Path): set<Path> { set p | p in t && p != [] && Parent(p) == d }

  ghost function StrictlyBelow(t: Tree, root: Path): set<Path> { set p | p in t && root <= p && p != root }

  /** What is gone when directories from `i` on have been emptied, and removed unless first in the list. */
  ghost function Gone(t: Tree, l: seq<Path>, i: nat): set<Path>
    requires l != [] && i <= |l|
  {
    set p | p in t && p != [] && ((p in l[i..] && p != l[0]) || Parent(p) in l[i..])
  }

  ghost predicate FullList(t: Tree, root: Path, l: seq<Path>) {
    l != [] && l[0] == root && root != [] && Distinct(l) && ParentsFirst(l) && Elements(l) == Dirs(t, root)
  }

  lemma Twice(l: seq<Path>, p: Path, i: nat, j: nat)
    requires Distinct(l) && i <= j <= |l| && p in l[..i]
    ensures p !in l[j..]
  {
  }

  lemma RootHasNoParent(t: Tree, root: Path, l: seq<Path>)
    requires FullList(t, root, l)
    ensures Parent(root) !in l
  {
    forall d | d in l
      ensures |d| >= |root|
    {
      assert d in Elements(l);
    }
  }

  lemma ChildLater(t: Tree, root: Path, l: seq<Path>, i: nat, k: nat)
    requires FullList(t, root, l) && i < |l| && k < |l| && l[k] != [] && Parent(l[k]) == l[i]
    ensures i < k && l[k] != root
  {
    RootHasNoParent(t, root, l);
    assert l[i] in l && k != 0;
    var m :| 0 <= m < k && l[..k][m] == l[i];
    assert l[m] == l[i];
  }

  /** Emptying the last directory left cannot meet a subdirectory: those come later in the list. */
  lemma OnlyFilesLeft(t: Tree, root: Path, l: seq<Path>, i: nat)
    requires FullList(t, root, l) && 0 < i <= |l|
    ensures var left := t - Gone(t, l, i);
            l[i - 1] in left && left[l[i - 1]].Folder? && forall p <- Children(left, l[i - 1]) :: left[p].File?
  {
    var d := l[i - 1];
    var left := t - Gone(t, l, i);
    assert d in Elements(l);
    assert d !in l[i..];
    if d != root {
      Twice(l, Parent(d), i - 1, i);
    }
    RootHasNoParent(t, root, l);
    forall p | p in Children(left, d)
      ensures left[p].File?
    {
      if t[p].Folder? {
        assert root <= d <= p;
        assert p in Dirs(t, root);
        var k :| 0 <= k < |l| && l[k] == p;
        ChildLater(t, root, l, i - 1, k);
      }
    }
  }

  lemma NotRoot(t: Tree, root: Path, l: seq<Path>, i: nat)
    requires FullList(t, root, l) && 0 < i <= |l|
    ensures l[i - 1] != [] && (i > 1 ==> l[i - 1] != l[0]) && l[i - 1] in t
  {
    assert l[i - 1] in Elements(l);
  }

  /** One directory emptied and, unless it is the one asked for, removed. */
  lemma OneGone(t: Tree, root: Path, l: seq<Path>, i: nat)
    requires FullList(t, root, l) && 0 < i <= |l|
    ensures var left := t - Gone(t, l, i);
            var emptied := left - Children(left, l[i - 1]);
            t - Gone(t, l, i - 1) == if i > 1 then emptied - {l[i - 1]} else emptied
  {
    hide Distinct, ParentsFirst, Elements, Dirs;
    var d := l[i - 1];
    var left := t - Gone(t, l, i);
    assert l[i - 1..] == [d] + l[i..];
    NotRoot(t, root, l, i);
    forall p | p in t
      ensures p in Gone(t, l, i - 1) <==> p in Gone(t, l, i) || p in Children(left, d) || (i > 1 && p == d)
    {
    }
  }

  lemma InListBelow(t: Tree, root: Path, l: seq<Path>, p: Path)
    requires FullList(t, root, l)
    ensures p in l <==> p in Dirs(t, root)
    ensures p != [] && Parent(p) in l ==> root <= p && p != root
  {
    assert p in l <==> p in Elements(l);
    if p != [] && Parent(p) in l {
      assert Parent(p) in Elements(l);
      assert p == Parent(p) + [Last(p)];
    }
  }

  lemma AllGone(t: Tree, root: Path, l: seq<Path>)
    requires FullList(t, root, l) && Sound(t) && MOUNT <= root
    ensures Gone(t, l, 0) == StrictlyBelow(t, root)
  {
    assert l[0..] == l;
    forall p | p in t
      ensures p in Gone(t, l, 0) <==> p in StrictlyBelow(t, root)
    {
      InListBelow(t, root, l, p);
      if root <= p && p != root {
        ParentBelow(t, root, p);
        InListBelow(t, root, l, Parent(p));
      }
    }
  }

  lemma NothingGone(t: Tree, l: seq<Path>)
    requires l != []
    ensures Gone(t, l, |l|) == {}
  {
    assert l[|l|..] == [];
  }

  /** Removing an entry without children leaves a sound tree. */
  lemma RemovalSound(t: Tree, p: Path)
    requires Sound(t) && p != MOUNT && Children(t, p) == {}
    ensures Sound(t - {p})
  {
    forall q | q in t - {p} && q != MOUNT
      ensures Parent(q) in t - {p}
    {
      assert q !in Children(t, p);
    }
  }

  /** Of what was there, only entries strictly below `root` may be missing. */
  ghost predicate OnlyBelow(was: Tree, now: Tree, root: Path) {
    && (forall p <- now :: p in was && now[p] == was[p])
    && (forall p <- was :: p in now || (root <= p && p != root))
  }

  ghost function Whole(t: Tree, root: Path): set<Path> { set p | p in t && root <= p }

  /** What a caller of the delete can check: a directory of the tree below the mount point, not too large to list. */
  ghost predicate Removable(t: Tree, path: Path) {
    && PathLength(path) < MAX_PATH && MOUNT < path && (forall n <- path :: !IsDot(n))
    && path in t && t[path].Folder? && DirectoriesFit(t, path) && FilePathsFit(t, path)
  }

  /** Files directly in any of `dirs` have paths that fit. */
  ghost predicate ShortBelow(t: Tree, root: Path, dirs: seq<Path>) {
    forall p <- Files(t, root) :: p != [] && Parent(p) in dirs ==> PathLength(p) < MAX_PATH
  }

  lemma PositiveLength(p: Path)
    ensures PathLength(p) == 0 <==> p == []
  {
  }

  lemma NoChildren(names: seq<Name>, t: Tree, d: Path)
    requires Enumerates(names, t, d) && Sound(t) && forall n <- names :: IsDot(n)
    ensures Children(t, d) == {}
  {
    forall p | p in t && p != []
      ensures Parent(p) != d
    {
      assert p == Parent(p) + [Last(p)];
    }
  }

  lemma FileHasNoChildren(t: Tree, p: Path)
    requires Sound(t) && p in t && t[p].File? && MOUNT <= p
    ensures Children(t, p) == {}
  {
  }

  lemma ScanFull(t: Tree, root: Path, l: seq<Path>)
    requires ScanBetween(t, root, l, |l|) && Elements(l) == Dirs(t, root) && root != []
    ensures FullList(t, root, l)
  {
  }

  lemma AllShort(t: Tree, root: Path, l: seq<Path>)
    requires FullList(t, root, l) && ShortBelow(t, root, l) && Sound(t) && MOUNT <= root
    ensures FilePathsFit(t, root)
  {
    hide PathLength;
    forall p | p in Files(t, root)
      ensures PathLength(p) < MAX_PATH
    {
      assert root in l;
      InListBelow(t, root, l, root);
      ParentBelow(t, root, p);
      InListBelow(t, root, l, Parent(p));
    }
  }

  lemma ListedBelow(t: Tree, root: Path, l: seq<Path>, i: nat)
    requires FullList(t, root, l) && i < |l| && MOUNT <= root
    ensures MOUNT <= l[i] && root <= l[i] && (i > 0 ==> l[i] != root && l[i] != MOUNT)
  {
    assert l[i] in l;
    InListBelow(t, root, l, l[i]);
  }

  lemma StillBelow(t: Tree, root: Path, l: seq<Path>, i: nat, removed: set<Path>)
    requires FullList(t, root, l) && i < |l| && removed <= Children(t - Gone(t, l, i + 1), l[i])
    ensures OnlyBelow(t, t - Gone(t, l, i + 1) - removed, root)
    ensures OnlyBelow(t, t - Gone(t, l, i), root)
  {
    assert l[i] in l;
    RootHasNoParent(t, root, l);
    forall p | p in t && (p in Gone(t, l, i + 1) || p in Gone(t, l, i) || p in removed)
      ensures root <= p && p != root
    {
      InListBelow(t, root, l, p);
    }
  }

  /** The files of a directory are still there when its turn comes. */
  /** What is left in a listed directory lies below the root. */
  lemma ChildrenBelow(t: Tree, root: Path, l: seq<Path>, i: nat)
    requires FullList(t, root, l) && i < |l|
    ensures forall p <- Children(t, l[i]) :: root <= p
  {
    assert l[i] in l;
    forall p | p in Children(t, l[i])
      ensures root <= p
    {
      InListBelow(t, root, l, p);
    }
  }

  lemma LongFileFound(t: Tree, root: Path, l: seq<Path>, i: nat)
    requires FullList(t, root, l) && i < |l|
    ensures var left := t - Gone(t, l, i + 1);
            (exists p <- Children(left, l[i]) :: PathLength(p) >= MAX_PATH && left[p].File?) ==> !FilePathsFit(t, root)
  {
    hide PathLength, FullList, Gone;
    ChildrenBelow(t, root, l, i);
    var left := t - Gone(t, l, i + 1);
    if p :| p in Children(left, l[i]) && PathLength(p) >= MAX_PATH && left[p].File? {
      assert p in Children(t, l[i]);
      assert p in Files(t, root);
    }
  }

  /** A file of a directory whose turn has not come is still there. */
  lemma FileStays(t: Tree, root: Path, l: seq<Path>, i: nat, p: Path)
    requires FullList(t, root, l) && i < |l| && p in Files(t, root) && p != [] && Parent(p) == l[i]
    ensures p in Children(t - Gone(t, l, i + 1), l[i])
  {
    InListBelow(t, root, l, p);
    assert l[i] !in l[i + 1..];
  }

  lemma FilesShort(t: Tree, root: Path, l: seq<Path>, i: nat)
    requires FullList(t, root, l) && i < |l| && ShortBelow(t, root, l[i + 1..])
    requires forall p <- Children(t - Gone(t, l, i + 1), l[i]) :: PathLength(p) < MAX_PATH
    ensures ShortBelow(t, root, l[i..])
  {
    hide PathLength, FullList, Gone, Children, Files;
    assert l[i..] == [l[i]] + l[i + 1..];
    forall p | p in Files(t, root) && p != [] && Parent(p) in l[i..]
      ensures PathLength(p) < MAX_PATH
    {
      if Parent(p) == l[i] {
        FileStays(t, root, l, i, p);
      }
    }
  }

  lemma FilesOf(t: Tree, root: Path, l: seq<Path>, i: nat)
    requires FullList(t, root, l) && i < |l| && ShortBelow(t, root, l[i + 1..])
    ensures var left := t - Gone(t, l, i + 1);
            && ((exists p <- Children(left, l[i]) :: PathLength(p) >= MAX_PATH && left[p].File?) ==>
                  !FilePathsFit(t, root))
            && ((forall p <- Children(left, l[i]) :: PathLength(p) < MAX_PATH) ==> ShortBelow(t, root, l[i..]))
  {
    hide PathLength, FullList, Gone, Children, ShortBelow, FilePathsFit;
    LongFileFound(t, root, l, i);
    if forall p <- Children(t - Gone(t, l, i + 1), l[i]) :: PathLength(p) < MAX_PATH {
      FilesShort(t, root, l, i);
    }
  }

  lemma EmptiedHere(t: Tree, d: Path)
    ensures Children(t - Children(t, d), d) == {}
    ensures d in t && d != [] && d !in Children(t, d) ==> d in t - Children(t, d)
  {
  }

  lemma WholeParts(t: Tree, root: Path)
    requires root in t
    ensures Whole(t, root) == StrictlyBelow(t, root) + {root}
    ensures t - Whole(t, root) == (t - StrictlyBelow(t, root)) - {root}
    ensures Children(t - StrictlyBelow(t, root), root) == {}
  {
  }
}
