/** The catalog build and the recursive delete, each over a work list of ten directories. */
module FileController {
  import opened FileTree
  import opened FileCatalog
  import opened FileRemoval

  datatype Code = Done | DriverError | NoSpace | NameTooLong | NotEmpty | NotFound | NotLocked

  class Controller {
    const listing: Listing

    /** Whether the n-th call to the file system fails. */
    const fails: nat -> bool
    var tree: Tree
    var catalog: seq<FileInfo>
    var calls: nat

    // the catalog walk
    const work: array<Path>
    const staging: array<FileInfo>
    var pending: nat
    var total: nat
    var count: nat
    ghost var found: set<Path>
    ghost var scanned: set<Path>

    // the directories a delete has listed
    const directories: array<Path>
    var listed: nat

    ghost predicate Valid()
      reads this
    {
      && Sound(tree) && Lists(listing)
      && work.Length == MAX_DIRECTORIES && staging.Length == MAX_FILES && directories.Length == MAX_DIRECTORIES
      && work as object != staging && work != directories && directories as object != staging
    }

    ghost predicate FaultFree()
      reads this
    {
      forall n :: !fails(n)
    }

    constructor (order: Listing, faults: nat -> bool, files: Tree)
      requires Sound(files) && Lists(order)
      ensures Valid() && tree == files && catalog == [] && listing == order && fails == faults
      ensures fresh(work) && fresh(staging) && fresh(directories)
    {
      listing, fails, tree, catalog, calls := order, faults, files, [], 0;
      work := new Path[MAX_DIRECTORIES](_ => []);
      staging := new FileInfo[MAX_FILES](_ => FileInfo("", [], 0));
      directories := new Path[MAX_DIRECTORIES](_ => []);
      pending, total, count, listed, found, scanned := 0, 0, 0, 0, {}, {};
    }

    // ---- the file system ----

    /** Opening, reading and closing a directory, and asking for an entry's kind, either work or fail. */
    method Call() returns (ok: bool)
      modifies this`calls
      ensures FaultFree() ==> ok
    {
      ok := !fails(calls);
      calls := calls + 1;
    }

    // ---- the catalog ----

    ghost function Progress(): Walk
      reads this, work, staging
      requires pending <= work.Length && count <= staging.Length
    {
      Walk(tree, found, scanned, work[..pending], staging[..count])
    }

    /** The walk between two directories. */
    ghost predicate Between()
      reads this, work, staging
    {
      && Valid() && pending <= total == |found| <= MAX_DIRECTORIES && count <= MAX_FILES
      && WalkBetween(Progress())
    }

    /** The walk inside `here`, which is off the work list, after the names in `seen`. */
    ghost predicate Inside(here: Path, seen: seq<Name>)
      reads this, work, staging
    {
      && Valid() && pending < total == |found| <= MAX_DIRECTORIES && count <= MAX_FILES
      && WalkInside(Progress(), here, seen)
    }

    /** A directory goes on the work list, into the slot of one scanned before. */
    method PushDirectory(here: Path, n: Name, ghost seen: seq<Name>) returns (code: Code)
      requires Inside(here, seen) && n !in seen && here + [n] in tree && tree[here + [n]].Folder?
      requires PathLength(here + [n]) < MAX_PATH
      modifies this`pending, this`total, this`found, work
      ensures code == Done ==> Inside(here, seen + [n])
      ensures code != Done ==> !Fits(tree, MOUNT)
    {
      hide WalkInside, PathLength, Sound, Lists;
      var child := here + [n];
      Pushed(Progress(), here, seen, n);
      if total >= MAX_DIRECTORIES || pending >= MAX_DIRECTORIES {
        return NoSpace;
      }
      ghost var was := work[..pending];
      work[pending] := child;
      pending, total := pending + 1, total + 1;
      assert work[..pending] == was + [child];
      found := found + {child};
      return Done;
    }

    /** A file goes on the staging list. */
    method StageFile(here: Path, n: Name, ghost seen: seq<Name>) returns (code: Code)
      requires Inside(here, seen) && n !in seen && here + [n] in tree && tree[here + [n]].File?
      requires PathLength(here + [n]) < MAX_PATH
      modifies this`count, staging
      ensures code == Done ==> Inside(here, seen + [n])
      ensures code != Done ==> !Fits(tree, MOUNT)
    {
      hide WalkInside, PathLength, Sound, Lists;
      var child := here + [n];
      FileSeen(Progress(), here, seen, n);
      if count >= MAX_FILES {
        return NoSpace;
      }
      if |n| >= MAX_NAME {
        return NameTooLong;
      }
      ghost var was := staging[..count];
      staging[count] := FileInfo(n, child, tree[child].size);
      count := count + 1;
      assert staging[..count] == was + [FileInfo(n, child, tree[child].size)];
      return Done;
    }

    method CatalogEntry(here: Path, n: Name, ghost seen: seq<Name>) returns (code: Code)
      requires Inside(here, seen) && n !in seen && here + [n] in tree
      modifies this`pending, this`total, this`count, this`found, work, staging
      ensures code == Done ==> Inside(here, seen + [n])
      ensures code != Done ==> !Fits(tree, MOUNT)
    {
      hide WalkInside, PathLength, Sound, Lists;
      var child := here + [n];
      if PathLength(child) >= MAX_PATH {
        HereBelow(Progress(), here, seen);
        assert MOUNT <= child && child != MOUNT;
        return NameTooLong;
      }
      if tree[child].Folder? {
        code := PushDirectory(here, n, seen);
      } else {
        code := StageFile(here, n, seen);
      }
    }

    lemma HereListed(here: Path)
      requires Inside(here, [])
      ensures Enumerates(listing(tree, here), tree, here)
    {
    }

    /** One directory, opened, read to its end and closed. */
    method CatalogDirectory(here: Path) returns (code: Code)
      requires Inside(here, [])
      modifies this`pending, this`total, this`count, this`found, this`scanned, this`calls, work, staging
      ensures code == Done ==> Between() && scanned == old(scanned) + {here}
      ensures code != Done && FaultFree() ==> !Fits(tree, MOUNT)
    {
      hide WalkInside, WalkBetween, Sound, Lists, Enumerates, IsDot, Fits;
      HereListed(here);
      var openOk := Call();
      if !openOk {
        return DriverError;
      }
      var names := listing(tree, here);
      code := Done;
      assert names[..0] == [];
      for j := 0 to |names|
        invariant scanned == old(scanned) && Valid()
        invariant code == Done ==> Inside(here, names[..j])
        invariant code != Done && FaultFree() ==> !Fits(tree, MOUNT)
      {
        var readOk := Call();
        if !readOk {
          code := DriverError;
        }
        if code != Done {
          break;
        }
        NextName(names, tree, here, j);
        if IsDot(names[j]) {
          DotSkipped(Progress(), here, names[..j], names[j]);
        } else {
          code := CatalogEntry(here, names[j], names[..j]);
        }
      }
      assert names[..|names|] == names;
      var closeOk := Call();
      if code == Done && !closeOk {
        code := DriverError;
      }
      if code == Done {
        DirectoryEnded(Progress(), here, names);
        scanned := scanned + {here};
      }
    }

    method BeginWalk()
      requires Valid()
      modifies this`pending, this`total, this`count, this`found, this`scanned, work
      ensures Between() && scanned == {}
    {
      hide WalkBetween, Sound, Lists;
      work[0] := MOUNT;
      pending, total, count := 1, 1, 0;
      found, scanned := {MOUNT}, {};
      assert work[..1] == [MOUNT];
      WalkBegins(tree);
    }

    /** The directory put on the work list last is taken off and catalogued. */
    method CatalogNext() returns (code: Code)
      requires Between() && pending > 0
      modifies this`pending, this`total, this`count, this`found, this`scanned, this`calls, work, staging
      ensures Valid()
      ensures code == Done ==>
                Between() && scanned <= Dirs(tree, MOUNT) &&
                |old(scanned)| < |scanned| <= |Dirs(tree, MOUNT)|
      ensures code != Done && FaultFree() ==> !Fits(tree, MOUNT)
    {
      hide WalkInside, WalkBetween, Sound, Lists, Fits, Dirs, Distinct, Elements;
      pending := pending - 1;
      var here := work[pending];
      assert work[..pending + 1][..pending] == work[..pending];
      Popped(Walk(tree, found, scanned, work[..pending + 1], staging[..count]));
      ghost var before := scanned;
      code := CatalogDirectory(here);
      if code == Done {
        assert |scanned| == |before| + 1;
        ScannedBelow(Progress());
        SubsetCount(scanned, Dirs(tree, MOUNT));
      }
    }

    /** Every file below the mount point, or, on any error, the catalog of before. */
    method BuildCatalog(lockable: bool) returns (code: Code)
      requires Valid()
      modifies this`catalog, this`pending, this`total, this`count, this`found, this`scanned, this`calls, work, staging
      ensures Valid()
      ensures code == Done ==> CatalogOf(catalog, tree, MOUNT) && Fits(tree, MOUNT)
      ensures code != Done ==> catalog == old(catalog)
      ensures FaultFree() ==> (code == Done <==> lockable && Fits(tree, MOUNT))
    {
      hide WalkInside, WalkBetween, Sound, Lists, Fits, CatalogOf, Dirs, Distinct, Elements, PathLength;
      if !lockable {
        return NotLocked;
      }
      BeginWalk();
      while pending > 0
        invariant Between() && catalog == old(catalog)
        invariant scanned <= Dirs(tree, MOUNT) && |scanned| <= |Dirs(tree, MOUNT)|
        decreases |Dirs(tree, MOUNT)| - |scanned|
      {
        code := CatalogNext();
        if code != Done {
          return code;
        }
      }
      assert work[..0] == [];
      WalkEnds(Progress());
      catalog := staging[..count];
      return Done;
    }

    // ---- the recursive delete ----

    method Unlink(p: Path) returns (code: Code)
      requires Valid() && p != MOUNT
      modifies this`tree, this`calls
      ensures Valid()
      ensures tree == if code == Done then old(tree) - {p} else old(tree)
      ensures code == NotEmpty ==> Children(old(tree), p) != {}
      ensures code == Done ==> p in old(tree)
      ensures FaultFree() && p in old(tree) && Children(old(tree), p) == {} ==> code == Done
    {
      hide Lists;
      var ok := Call();
      if !ok {
        return DriverError;
      } else if p !in tree {
        return NotFound;
      } else if exists q <- tree :: q != [] && Parent(q) == p {
        assert exists q <- tree :: q in Children(tree, p);
        return NotEmpty;
      }
      assert Children(tree, p) == {};
      RemovalSound(tree, p);
      tree := tree - {p};
      return Done;
    }

    lemma ListedOnce(here: Path)
      requires Valid() && here in tree && tree[here].Folder?
      ensures Enumerates(listing(tree, here), tree, here)
    {
    }

    method ListDirectory(root: Path, i: nat, n: Name, ghost seen: seq<Name>) returns (code: Code)
      requires Valid() && i < listed <= MAX_DIRECTORIES
      requires n !in seen && directories[i] + [n] in tree && tree[directories[i] + [n]].Folder?
      requires ScanInside(tree, root, directories[..listed], i, seen)
      modifies this`listed, directories
      ensures i < listed <= MAX_DIRECTORIES && directories[i] == old(directories[i])
      ensures code == Done ==> ScanInside(tree, root, directories[..listed], i, seen + [n])
      ensures code != Done ==> !DirectoriesFit(tree, root)
      ensures code != NotEmpty
    {
      hide ScanInside, Sound, Lists, PathLength;
      ghost var was := directories[..listed];
      assert directories[i] == was[i];
      Listed(tree, root, was, i, seen, n);
      if listed >= MAX_DIRECTORIES {
        return NoSpace;
      }
      var child := directories[i] + [n];
      if PathLength(child) >= MAX_PATH {
        return NameTooLong;
      }
      directories[listed] := child;
      listed := listed + 1;
      assert directories[..listed] == was + [child];
      return Done;
    }

    /** First pass, one directory: its subdirectories are listed behind those found before. */
    method ScanDirectory(root: Path, i: nat) returns (code: Code)
      requires Valid() && i < listed <= MAX_DIRECTORIES && ScanBetween(tree, root, directories[..listed], i)
      modifies this`listed, this`calls, directories
      ensures code == Done ==> i < listed <= MAX_DIRECTORIES && ScanBetween(tree, root, directories[..listed], i + 1)
      ensures code != Done && FaultFree() ==> !DirectoriesFit(tree, root)
      ensures code != NotEmpty
    {
      hide ScanBetween, ScanInside, Sound, Enumerates, IsDot, DirectoriesFit;
      var here := directories[i];
      assert here == directories[..listed][i];
      Enter(tree, root, directories[..listed], i);
      ListedOnce(here);
      var openOk := Call();
      if !openOk {
        return DriverError;
      }
      var names := listing(tree, here);
      code := Done;
      assert names[..0] == [];
      for j := 0 to |names|
        invariant i < listed <= MAX_DIRECTORIES && directories[i] == here
        invariant code == Done ==> ScanInside(tree, root, directories[..listed], i, names[..j])
        invariant code != NotEmpty && (code != Done && FaultFree() ==> !DirectoriesFit(tree, root))
      {
        var readOk := Call();
        if !readOk {
          code := DriverError;
        }
        if code != Done {
          break;
        }
        NextName(names, tree, here, j);
        assert here == directories[..listed][i];
        if IsDot(names[j]) || tree[here + [names[j]]].File? {
          NotListed(tree, root, directories[..listed], i, names[..j], names[j]);
        } else {
          code := ListDirectory(root, i, names[j], names[..j]);
        }
      }
      assert names[..|names|] == names;
      var closeOk := Call();
      if code == Done && !closeOk {
        code := DriverError;
      }
      if code == Done {
        assert here == directories[..listed][i];
        Leave(tree, root, directories[..listed], i, names);
      }
    }

    /** Opens a directory, reads up to the first entry that is not a dot entry, and closes it. */
    method FirstEntry(d: Path) returns (code: Code, entry: seq<Name>)
      requires Valid() && d in tree && tree[d].Folder?
      modifies this`calls
      ensures |entry| <= 1 && code != NotEmpty
      ensures code == Done && entry == [] ==> Children(tree, d) == {}
      ensures code == Done && entry != [] ==> d + entry in Children(tree, d) && PathLength(d + entry) < MAX_PATH
      ensures code != Done && FaultFree() ==> exists p <- Children(tree, d) :: PathLength(p) >= MAX_PATH
    {
      hide Lists, PathLength;
      entry := [];
      ListedOnce(d);
      var openOk := Call();
      if !openOk {
        return DriverError, [];
      }
      var names := listing(tree, d);
      var j := 0;
      code := Done;
      while j < |names|
        invariant j <= |names| && code == Done && entry == []
        invariant forall k :: 0 <= k < j ==> IsDot(names[k])
      {
        var readOk := Call();
        if !readOk {
          code := DriverError;
          break;
        }
        NextName(names, tree, d, j);
        if !IsDot(names[j]) {
          var child := d + [names[j]];
          assert Parent(child) == d;
          if PathLength(child) >= MAX_PATH {
            code := NameTooLong;
          } else {
            entry := [names[j]];
          }
          break;
        }
        j := j + 1;
      }
      if j == |names| {
        NoChildren(names, tree, d);
      }
      var closeOk := Call();
      if code == Done && !closeOk {
        code := DriverError;
      }
    }

    /** Second pass, one directory: its files are unlinked one after the other, and the directory read anew each
        time. */
    method EmptyDirectory(d: Path) returns (code: Code, ghost removed: set<Path>)
      requires Valid() && d in tree && tree[d].Folder? && MOUNT <= d
      requires forall p <- Children(tree, d) :: tree[p].File?
      modifies this`tree, this`calls
      ensures Valid() && removed <= Children(old(tree), d) && tree == old(tree) - removed
      ensures code == Done ==> removed == Children(old(tree), d) && forall p <- removed :: PathLength(p) < MAX_PATH
      ensures code != NotEmpty
      ensures FaultFree() && code != Done ==> exists p <- Children(old(tree), d) :: PathLength(p) >= MAX_PATH
    {
      hide Lists, Sound, PathLength;
      removed := {};
      ghost var was := tree;
      while true
        invariant Valid() && removed <= Children(was, d) && tree == was - removed
        invariant forall p <- removed :: PathLength(p) < MAX_PATH
        decreases |tree|
      {
        assert d !in removed;
        var entry;
        code, entry := FirstEntry(d);
        if code != Done {
          return code, removed;
        }
        if entry == [] {
          return Done, removed;
        }
        var child := d + entry;
        FileHasNoChildren(tree, child);
        if !tree[child].File? {
          assert false;
        }
        ghost var before := tree;
        code := Unlink(child);
        if code != Done {
          return code, removed;
        }
        assert |tree| == |before| - 1;
        removed := removed + {child};
      }
    }

    method RemoveOne(root: Path, i: nat, ghost was: Tree) returns (code: Code)
      requires Valid() && Sound(was) && MOUNT <= root && i < listed <= MAX_DIRECTORIES
      requires FullList(was, root, directories[..listed])
      requires tree == was - Gone(was, directories[..listed], i + 1) &&
                 ShortBelow(was, root, directories[..listed][i + 1..])
      modifies this`tree, this`calls
      ensures Valid() && code != NotEmpty && OnlyBelow(was, tree, root)
      ensures code == Done ==>
                tree == was - Gone(was, directories[..listed], i) && ShortBelow(was, root, directories[..listed][i..])
      ensures FaultFree() && code != Done ==> !FilePathsFit(was, root)
    {
      hide Lists, Sound, PathLength, FullList, Gone, Children, ShortBelow, OnlyBelow, FilePathsFit;
      ghost var l := directories[..listed];
      var d := directories[i];
      assert d == l[i];
      ghost var left := tree;
      ListedBelow(was, root, l, i);
      OnlyFilesLeft(was, root, l, i + 1);
      OneGone(was, root, l, i + 1);
      ghost var removed;
      code, removed := EmptyDirectory(d);
      StillBelow(was, root, l, i, removed);
      FilesOf(was, root, l, i);
      if code != Done {
        return code;
      }
      EmptiedHere(left, d);
      if i > 0 {
        code := Unlink(d);
      }
    }

    /** Second pass: the listed directories from the last to the first. */
    method RemoveListed(root: Path) returns (code: Code)
      requires Valid() && MOUNT <= root && 0 < listed <= MAX_DIRECTORIES && FullList(tree, root, directories[..listed])
      modifies this`tree, this`calls
      ensures Valid() && code != NotEmpty && OnlyBelow(old(tree), tree, root)
      ensures code == Done ==> tree == old(tree) - StrictlyBelow(old(tree), root)
      ensures code == Done ==> FilePathsFit(old(tree), root)
      ensures FaultFree() && code != Done ==> !FilePathsFit(old(tree), root)
    {
      hide Lists, Sound, PathLength, FullList, Gone, FilePathsFit;
      ghost var was, l := tree, directories[..listed];
      NothingGone(was, l);
      var i: nat := listed;
      while i > 0
        invariant i <= listed && Valid() && tree == was - Gone(was, l, i) && ShortBelow(was, root, l[i..])
      {
        i := i - 1;
        var d := directories[i];
        assert d == l[i];
        code := RemoveOne(root, i, was);
        if code != Done {
          return code;
        }
      }
      assert l[0..] == l;
      AllGone(was, root, l);
      AllShort(was, root, l);
      return Done;
    }

    /** Everything strictly below `root` is removed, deepest directories first, after a first pass that only looks. */
    method DeleteInside(root: Path) returns (code: Code)
      requires Valid() && root in tree && tree[root].Folder? && MOUNT <= root
      modifies this`tree, this`listed, this`calls, directories
      ensures Valid() && code != NotEmpty
      ensures OnlyBelow(old(tree), tree, root)
      ensures code == Done ==> tree == old(tree) - StrictlyBelow(old(tree), root)
      ensures !DirectoriesFit(old(tree), root) ==> code != Done && tree == old(tree)
      ensures FaultFree() ==>
                (code == Done <==>
                   PathLength(root) < MAX_PATH && DirectoriesFit(old(tree), root) && FilePathsFit(old(tree), root))
    {
      hide Lists, Sound, PathLength, DirectoriesFit, ScanBetween, FilePathsFit;
      if PathLength(root) == 0 || PathLength(root) >= MAX_PATH {
        PositiveLength(root);
        return NameTooLong;
      }
      directories[0] := root;
      listed := 1;
      assert directories[..1] == [root];
      ScanBegins(tree, root);
      var i := 0;
      while i < listed
        invariant tree == old(tree) && i <= listed <= MAX_DIRECTORIES
        invariant ScanBetween(tree, root, directories[..listed], i)
        decreases MAX_DIRECTORIES - i
      {
        code := ScanDirectory(root, i);
        if code != Done {
          return code;
        }
        i := i + 1;
      }
      ScanEnds(tree, root, directories[..listed]);
      ScanFull(tree, root, directories[..listed]);
      code := RemoveListed(root);
    }

    /** The directory and everything below it, or nothing outside of it; the catalog is rebuilt either way. */
    method DeleteDirectory(path: Path, bulkActive: bool, lockable: bool, catalogLockable: bool) returns (ok: bool)
      requires Valid()
      modifies this, work, staging, directories
      ensures Valid()
      ensures OnlyBelow(old(tree), tree, path) || (path in old(tree) && tree == old(tree) - Whole(old(tree), path))
      ensures ok ==> tree == old(tree) - Whole(old(tree), path) && CatalogOf(catalog, tree, MOUNT)
      ensures !DirectoriesFit(old(tree), path) ==> !ok && tree == old(tree)
      ensures FaultFree() ==>
                (ok <==>
                 && !bulkActive && lockable && catalogLockable
                 && Removable(old(tree), path)
                 && Fits(old(tree) - Whole(old(tree), path), MOUNT))
    {
      hide Lists, Sound, PathLength, DirectoriesFit, FilePathsFit, Fits, CatalogOf, StrictlyBelow;
      if bulkActive || PathLength(path) == 0 || PathLength(path) >= MAX_PATH {
        PositiveLength(path);
        return false;
      }
      if !(MOUNT < path) || (exists n <- path :: IsDot(n)) || !lockable {
        return false;
      }
      var statOk := Call();
      if !statOk || path !in tree || tree[path].File? {
        return false;
      }
      ghost var was := tree;
      var code := DeleteInside(path);
      WholeParts(was, path);
      if code == Done {
        assert path in tree;
        code := Unlink(path);
      }
      var catalogCode := BuildCatalog(catalogLockable);
      return code == Done && catalogCode == Done;
    }
  }
}
