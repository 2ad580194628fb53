/** What the catalog walk knows: directories found, scanned or waiting on its work list, and the files staged so far. */
module FileCatalog {
  import opened FileTree

  /** A walk: its tree, the directories found, those of them scanned, the work list and the files staged. */
  datatype Walk = Walk(tree: Tree, found: set<Path>, scanned: set<Path>, stack: seq<Path>, files: seq<FileInfo>)

  ghost predicate FileRead(t: Tree, p: Path, scanned: set<Path>, here: Path, seen: seq<Name>) {
    p in t && t[p].File? && p != [] && (Parent(p) in scanned || (Parent(p) == here && Last(p) in seen))
  }

  /** Files below scanned directories, and those of `here` already read, each once. */
  ghost predicate Staged(files: seq<FileInfo>, t: Tree, scanned: set<Path>, here: Path, seen: seq<Name>) {
    && (forall i, j :: 0 <= i < j < |files| ==> files[i].path != files[j].path)
    && (forall e <- files :: FileRead(t, e.path, scanned, here, seen) && e == InfoOf(t, e.path))
    && (forall p <- t :: FileRead(t, p, scanned, here, seen) ==> exists e <- files :: e.path == p)
  }

  ghost predicate Roomy(files: seq<FileInfo>, found: set<Path>) {
    && (forall e <- files :: PathLength(e.path) < MAX_PATH && |e.name| < MAX_NAME)
    && (forall d <- found :: d != MOUNT ==> PathLength(d) < MAX_PATH)
  }

  /** What is found is scanned or waits on the work list, and the files below scanned directories are staged. */
  ghost predicate WalkBetween(w: Walk) {
    && Walked(w.tree, MOUNT, w.found, w.scanned)
    && Distinct(w.stack) && w.found == w.scanned + Elements(w.stack) && w.scanned !! Elements(w.stack)
    && Staged(w.files, w.tree, w.scanned, [], []) && Roomy(w.files, w.found)
  }

  ghost predicate WalkInside(w: Walk, here: Path, seen: seq<Name>) {
    && Walking(w.tree, MOUNT, w.found, w.scanned, here, seen)
    && Distinct(w.stack) && here !in w.stack
    && w.found == w.scanned + {here} + Elements(w.stack) && w.scanned !! Elements(w.stack)
    && Staged(w.files, w.tree, w.scanned, here, seen) && Roomy(w.files, w.found)
  }

  lemma NothingRead(files: seq<FileInfo>, t: Tree, scanned: set<Path>, here: Path, seen: seq<Name>, n: Name)
    requires Staged(files, t, scanned, here, seen) && here + [n] !in t
    ensures Staged(files, t, scanned, here, seen + [n])
  {
    forall p | p in t
      ensures FileRead(t, p, scanned, here, seen + [n]) == FileRead(t, p, scanned, here, seen)
    {
      assert p != [] ==> p == Parent(p) + [Last(p)];
    }
  }

  /** The dot entries name nothing. */
  lemma DotSkipped(w: Walk, here: Path, seen: seq<Name>, n: Name)
    requires WalkInside(w, here, seen) && here + [n] !in w.tree
    ensures WalkInside(w, here, seen + [n])
  {
    hide Staged, Walking;
    SkipName(w.tree, MOUNT, w.found, w.scanned, here, seen, n);
    NothingRead(w.files, w.tree, w.scanned, here, seen, n);
  }

  lemma AllRead(files: seq<FileInfo>, t: Tree, scanned: set<Path>, here: Path, names: seq<Name>)
    requires Staged(files, t, scanned, here, names) && Enumerates(names, t, here)
    ensures Staged(files, t, scanned + {here}, [], [])
  {
    forall p | p in t
      ensures FileRead(t, p, scanned + {here}, [], []) == FileRead(t, p, scanned, here, names)
    {
      assert p != [] ==> p == Parent(p) + [Last(p)];
    }
  }

  lemma DirectoryEnded(w: Walk, here: Path, names: seq<Name>)
    requires WalkInside(w, here, names) && Enumerates(names, w.tree, here)
    ensures WalkBetween(w.(scanned := w.scanned + {here}))
  {
    hide Staged, Walking, Enumerates, Walked;
    EndScan(w.tree, MOUNT, w.found, w.scanned, here, names);
    AllRead(w.files, w.tree, w.scanned, here, names);
  }

  lemma WalkBegins(t: Tree)
    requires Sound(t)
    ensures WalkBetween(Walk(t, {MOUNT}, {}, [MOUNT], []))
  {
  }

  lemma TopOff(found: set<Path>, scanned: set<Path>, stack: seq<Path>)
    requires stack != [] && Distinct(stack) && found == scanned + Elements(stack) && scanned !! Elements(stack)
    ensures var n := |stack| - 1;
            && Distinct(stack[..n]) && stack[n] !in stack[..n] && stack[n] in found && stack[n] !in scanned
            && found == scanned + {stack[n]} + Elements(stack[..n]) && scanned !! Elements(stack[..n]) && n < |found|
  {
    var n := |stack| - 1;
    var here := stack[n];
    assert stack == stack[..n] + [here];
    ElementsSnoc(stack[..n], here);
    assert here in Elements(stack);
    DistinctCount(stack);
    SubsetCount(Elements(stack), found);
  }

  lemma NotYet(files: seq<FileInfo>, t: Tree, scanned: set<Path>, here: Path)
    requires Staged(files, t, scanned, [], [])
    ensures Staged(files, t, scanned, here, [])
  {
    forall p | p in t
      ensures FileRead(t, p, scanned, here, []) == FileRead(t, p, scanned, [], [])
    {
    }
  }

  /** The directory taken off the work list has not been scanned. */
  lemma Popped(w: Walk)
    requires WalkBetween(w) && w.stack != []
    ensures var n := |w.stack| - 1;
            && WalkInside(w.(stack := w.stack[..n]), w.stack[n], [])
            && n < |w.found| && w.stack[n] !in w.scanned
  {
    hide Staged, Walked, Walking, Distinct, Elements;
    var n := |w.stack| - 1;
    TopOff(w.found, w.scanned, w.stack);
    BeginScan(w.tree, MOUNT, w.found, w.scanned, w.stack[n]);
    NotYet(w.files, w.tree, w.scanned, w.stack[n]);
  }

  lemma ScannedBelow(w: Walk)
    requires WalkBetween(w)
    ensures w.scanned <= Dirs(w.tree, MOUNT)
  {
  }

  lemma AllStaged(t: Tree, scanned: set<Path>, files: seq<FileInfo>)
    requires scanned == Dirs(t, MOUNT) && Sound(t) && Staged(files, t, scanned, [], [])
    ensures CatalogOf(files, t, MOUNT)
  {
    forall p | p in t && t[p].File?
      ensures p in Files(t, MOUNT) <==> FileRead(t, p, scanned, [], [])
    {
      if MOUNT <= p {
        ParentBelow(t, MOUNT, p);
      }
      assert p == Parent(p) + [Last(p)];
    }
  }

  lemma FilesCounted(t: Tree, files: seq<FileInfo>)
    requires CatalogOf(files, t, MOUNT)
    ensures |Files(t, MOUNT)| == |files|
  {
    var paths := seq(|files|, i requires 0 <= i < |files| => files[i].path);
    DistinctCount(paths);
    forall p | p in Files(t, MOUNT)
      ensures p in paths
    {
      var e :| e in files && e.path == p;
      var i :| 0 <= i < |files| && files[i] == e;
      assert paths[i] == p;
    }
    forall p | p in paths
      ensures p in Files(t, MOUNT)
    {
      var i :| 0 <= i < |paths| && paths[i] == p;
      assert files[i] in files;
    }
    assert Elements(paths) == Files(t, MOUNT);
  }

  /** With the work list empty the staging list is the catalog. */
  lemma WalkEnds(w: Walk)
    requires WalkBetween(w) && w.stack == [] && Sound(w.tree)
    requires |w.found| <= MAX_DIRECTORIES && |w.files| <= MAX_FILES
    ensures CatalogOf(w.files, w.tree, MOUNT) && Fits(w.tree, MOUNT)
  {
    hide Staged, Walked, Sound;
    assert w.scanned == w.found;
    WalkComplete(w.tree, MOUNT, w.found);
    AllStaged(w.tree, w.scanned, w.files);
    FilesCounted(w.tree, w.files);
    forall p | p in w.tree && MOUNT <= p && p != MOUNT
      ensures PathLength(p) < MAX_PATH && (w.tree[p].File? ==> |Last(p)| < MAX_NAME)
    {
      if w.tree[p].File? {
        assert p in Files(w.tree, MOUNT);
      } else {
        assert p in Dirs(w.tree, MOUNT);
      }
    }
  }

  lemma HereBelow(w: Walk, here: Path, seen: seq<Name>)
    requires WalkInside(w, here, seen)
    ensures MOUNT <= here && here !in w.scanned && here in w.found
  {
  }

  /** A subdirectory read for the first time is new; with ten found before it there are too many. */
  lemma NewDirectory(t: Tree, root: Path, found: set<Path>, scanned: set<Path>, here: Path, seen: seq<Name>, n: Name)
    requires Walking(t, root, found, scanned, here, seen) && n !in seen && here + [n] in t && t[here + [n]].Folder?
    ensures here + [n] !in found && |Dirs(t, root)| > |found|
    ensures Walking(t, root, found + {here + [n]}, scanned, here, seen + [n])
  {
    AddDirectory(t, root, found, scanned, here, seen, n);
    SubsetCount(found + {here + [n]}, Dirs(t, root));
  }

  lemma FolderRead(files: seq<FileInfo>, t: Tree, scanned: set<Path>, here: Path, seen: seq<Name>, n: Name)
    requires Staged(files, t, scanned, here, seen) && here + [n] in t && t[here + [n]].Folder?
    ensures Staged(files, t, scanned, here, seen + [n])
  {
    forall p | p in t
      ensures FileRead(t, p, scanned, here, seen + [n]) == FileRead(t, p, scanned, here, seen)
    {
      if p != [] && Parent(p) == here && Last(p) == n {
        assert p == here + [n];
      }
    }
  }

  lemma PutOn(found: set<Path>, scanned: set<Path>, stack: seq<Path>, here: Path, d: Path)
    requires Distinct(stack) && here !in stack && here in found && d !in found
    requires found == scanned + {here} + Elements(stack) && scanned !! Elements(stack)
    ensures Distinct(stack + [d]) && here !in stack + [d]
    ensures found + {d} == scanned + {here} + Elements(stack + [d]) && scanned !! Elements(stack + [d])
  {
    ElementsSnoc(stack, d);
    assert d !in Elements(stack);
  }

  lemma RoomForDirectory(files: seq<FileInfo>, found: set<Path>, d: Path)
    requires Roomy(files, found) && PathLength(d) < MAX_PATH
    ensures Roomy(files, found + {d})
  {
    hide PathLength;
  }

  lemma Pushed(w: Walk, here: Path, seen: seq<Name>, n: Name)
    requires WalkInside(w, here, seen)
    requires n !in seen && here + [n] in w.tree && w.tree[here + [n]].Folder? && PathLength(here + [n]) < MAX_PATH
    ensures here + [n] !in w.found && |Dirs(w.tree, MOUNT)| > |w.found|
    ensures WalkInside(w.(found := w.found + {here + [n]}, stack := w.stack + [here + [n]]), here, seen + [n])
  {
    hide Staged, PathLength, Walking, Roomy, Dirs, Distinct, Elements;
    RoomForDirectory(w.files, w.found, here + [n]);
    NewDirectory(w.tree, MOUNT, w.found, w.scanned, here, seen, n);
    HereBelow(w, here, seen);
    PutOn(w.found, w.scanned, w.stack, here, here + [n]);
    FolderRead(w.files, w.tree, w.scanned, here, seen, n);
  }

  /** A file read for the first time is not on the list, and completes it. */
  lemma NewFile(files: seq<FileInfo>, t: Tree, scanned: set<Path>, here: Path, seen: seq<Name>, n: Name)
    requires Staged(files, t, scanned, here, seen) && here + [n] in t && t[here + [n]].File?
    requires here !in scanned && n !in seen
    ensures forall e <- files :: e.path != here + [n]
    ensures Staged(files + [InfoOf(t, here + [n])], t, scanned, here, seen + [n])
  {
    var child := here + [n];
    assert Parent(child) == here && Last(child) == n;
    var all := files + [InfoOf(t, child)];
    forall p | p in t && FileRead(t, p, scanned, here, seen + [n])
      ensures exists e <- all :: e.path == p
    {
      if p == child {
        assert all[|files|].path == p;
      } else {
        assert p == Parent(p) + [Last(p)];
        var e :| e in files && e.path == p;
        assert e in all;
      }
    }
  }

  /** A full staging list and one more file are more files than fit. */
  lemma StagedCount(files: seq<FileInfo>, t: Tree, scanned: set<Path>, here: Path, seen: seq<Name>, n: Name,
                    found: set<Path>)
    requires here + [n] in t && t[here + [n]].File? && here + [n] != []
    requires Staged(files + [InfoOf(t, here + [n])], t, scanned, here, seen + [n]) &&
               Walking(t, MOUNT, found, scanned, here, seen)
    ensures |Files(t, MOUNT)| > |files|
  {
    var all := files + [InfoOf(t, here + [n])];
    var paths := seq(|all|, i requires 0 <= i < |all| => all[i].path);
    DistinctCount(paths);
    forall p | p in paths
      ensures p in Files(t, MOUNT)
    {
      var i :| 0 <= i < |paths| && paths[i] == p;
      assert all[i] in all;
    }
    SubsetCount(Elements(paths), Files(t, MOUNT));
  }

  lemma FileSeen(w: Walk, here: Path, seen: seq<Name>, n: Name)
    requires WalkInside(w, here, seen)
    requires n !in seen && here + [n] in w.tree && w.tree[here + [n]].File? && PathLength(here + [n]) < MAX_PATH
    ensures |Files(w.tree, MOUNT)| > |w.files| && here + [n] in Files(w.tree, MOUNT) && Last(here + [n]) == n
    ensures |n| < MAX_NAME ==>
              WalkInside(w.(files := w.files + [FileInfo(n, here + [n], w.tree[here + [n]].size)]), here, seen + [n])
  {
    hide Staged, PathLength, Walking;
    HereBelow(w, here, seen);
    SkipName(w.tree, MOUNT, w.found, w.scanned, here, seen, n);
    NewFile(w.files, w.tree, w.scanned, here, seen, n);
    StagedCount(w.files, w.tree, w.scanned, here, seen, n, w.found);
  }
}
