/**
 * Concrete runs of the model: the highlighted lines of one file, the folder test that ends a
 * discovery pass early, and a rediscovered database that leaves a source file's binding on an
 * object that no longer receives reloads.
 */
module Scenarios {
  import opened Wrappers
  import opened Lines
  import opened Paths
  import opened Coverage
  import opened Discovery
  import opened Regions
  import opened Registry

  /** A database that recorded lines 1, 2 and 4 of `/w/p/a.py`. */
  const Partial := CoverageData({"/w/p/a.py"}, map["/w/p/a.py" := {1, 2, 4}])

  /** The same database after a run that executed every line. */
  const Complete := CoverageData({"/w/p/a.py"}, map["/w/p/a.py" := {1, 2, 3, 4, 5}])

  /** The five statement lines of `/w/p/a.py`. */
  const Statements: set<int> := {1, 2, 3, 4, 5}

  /**
   * Lines 3 and 5 are missing, reported largest first, and their regions are the view's
   * fifth and third lines (0-based indices 4 and 2).
   */
  lemma PartialCoverageDrawsTwoLines()
    ensures MissingLines(Partial, "/w/p/a.py", Statements) == Some([5, 3])
    ensures Render(MissingLines(Partial, "/w/p/a.py", Statements), 5) == Drawn([4, 2])
  {
    assert Statements - Partial.lines["/w/p/a.py"] == {3, 5};
    SortedDescendingIs({3, 5}, [5, 3]);
  }

  /** Once every line ran, nothing is missing and the regions are erased. */
  lemma CompleteCoverageErases()
    ensures Render(MissingLines(Complete, "/w/p/a.py", Statements), 5) == Erased
  {
    FullyCoveredIsEmpty(Complete, "/w/p/a.py", Statements);
  }

  /**
   * With `/w/p` watched, a window whose folders are `/w/pkg` and `/x` registers nothing:
   * "/w/p" is a substring of "/w/pkg", and the pass ends before it reaches `/x`.
   */
  lemma SiblingFolderEndsThePass()
    ensures Processed({"/w/p"}, ["/w/pkg", "/x"]) == 0
  {
    SubstringIsNotAncestry("/w/p", "/w/pkg");
    assert AlreadyWatched({"/w/p"}, "/w/pkg");
  }

  /** No folder is watched yet: a one-folder window gets to its folder. */
  lemma FirstFolderIsRegistered(folder: string)
    ensures Processed({}, [folder]) == 1
  {
    assert !AlreadyWatched({}, folder);
    assert [folder][1..] == [];
  }

  /** `/w/p` is not contained in `/w`, so a window on the parent folder is scanned. */
  lemma ParentFolderIsScanned()
    ensures Processed({"/w/p"}, ["/w"]) == 1
  {
    assert !IsSubstring("/w/p", "/w") by {
      assert !IsSubstring("/w/p", "/w"[1..][1..]);
    }
    assert !AlreadyWatched({"/w/p"}, "/w");
    assert ["/w"][1..] == [];
  }

  /** The database of the scenarios below, and the source file it measures. */
  const Database := "/w/p/.coverage"
  const Source := "/w/p/a.py"

  /** A disk where both `/w/p` and its parent `/w` glob to the one database, which holds Partial. */
  const Disk := FileSystem(map["/w/p" := [Database], "/w" := [Database]], {Database}, map[Database := Partial])

  /** Registering either folder lists the database once and finds it and nothing else. */
  lemma OneDatabaseUnder(keys: seq<string>, folder: string)
    requires folder == "/w/p" || folder == "/w"
    ensures RegisterAll(keys, Disk, [folder]) == Insert(keys, Database)
    ensures forall p :: FoundIn(Disk, [folder], p) <==> p == Database
  {
    assert Disk.Glob(folder) == [Database] && [Database][1..] == [] && [folder][1..] == [];
    assert Register(keys, Disk, [Database]) == Register(Insert(keys, Database), Disk, []);
    forall p
      ensures FoundIn(Disk, [folder], p) <==> p == Database
    {
      FoundInOne(Disk, folder);
    }
  }

  /** A window on `/w/p` over an empty cache watches that folder and registers its database. */
  method OpenFirstWindow() returns (cache: Cache)
    ensures fresh(cache) && cache.Valid()
    ensures cache.openFolders.Keys == {"/w/p"} && cache.coverageKeys == [Database]
    ensures cache.coverageForFile == map[] && cache.handlers == map[]
    ensures Database in cache.coverageFiles && fresh(cache.coverageFiles[Database])
    ensures cache.coverageFiles[Database].data == Partial
  {
    cache := new Cache();
    FirstFolderIsRegistered("/w/p");
    OneDatabaseUnder([], "/w/p");
    assert ["/w/p"][..1] == ["/w/p"];
    cache.UpdateAvailableCoverageFiles(true, ["/w/p"], Disk);
    assert cache.coverageFiles[Database] in cache.coverageFiles.Values;
  }

  /**
   * Then activating a view of `/w/p/a.py` binds that file to the database and draws lines 3
   * and 5.
   */
  method FirstWindow() returns (cache: Cache, bound: CoverageFile, first: RegionUpdate)
    ensures fresh(cache) && fresh(bound) && cache.Valid()
    ensures cache.openFolders.Keys == {"/w/p"} && cache.coverageKeys == [Database]
    ensures Database in cache.coverageFiles && cache.coverageFiles[Database] == bound
    ensures Source in cache.coverageForFile && cache.coverageForFile[Source] == bound
    ensures Database !in cache.handlers
    ensures bound.data == Partial
    ensures first == Drawn([4, 2])
  {
    cache := OpenFirstWindow();
    assert cache.EntryAt(0).data == Partial;
    assert cache.FirstMeasuring(0, Source) == Some(Database);
    bound := cache.coverageFiles[Database];
    first := cache.UpdateRegions(1, Source, Statements, 5);
    PartialCoverageDrawsTwoLines();
  }

  /**
   * A window on the parent `/w`, with `/w/p` watched and its database registered, finds that
   * database again and loads it into a new object, leaving the bindings and handlers alone.
   */
  method OpenParentWindow(cache: Cache)
    requires cache.Valid()
    requires cache.openFolders.Keys == {"/w/p"} && cache.coverageKeys == [Database]
    modifies cache
    ensures cache.Valid()
    ensures cache.coverageForFile == old(cache.coverageForFile) && cache.handlers == old(cache.handlers)
    ensures Database in cache.coverageFiles && fresh(cache.coverageFiles[Database])
  {
    ParentFolderIsScanned();
    OneDatabaseUnder([Database], "/w");
    assert ["/w"][..1] == ["/w"];
    cache.UpdateAvailableCoverageFiles(true, ["/w"], Disk);
    assert cache.coverageKeys == [Database];
    assert cache.coverageFiles[Database] in cache.coverageFiles.Values;
  }

  /**
   * After FirstWindow, a window on the parent `/w` finds the same database again and replaces
   * its entry with a new object. The next run of the tests reloads that new object, but no view
   * is among the reload's targets (views are registered under the source path, the targets
   * looked up under the database path), and a later activation still renders the data bound
   * before: as a CoverageFile's data changes only through `update()` in this model, lines 3 and
   * 5 stay highlighted.
   */
  method StaleBindingAfterRediscovery() returns (first: RegionUpdate, targets: set<ViewId>, second: RegionUpdate)
    ensures first == Drawn([4, 2])
    ensures targets == {}
    ensures second == first
  {
    var cache, bound;
    cache, bound, first := FirstWindow();
    OpenParentWindow(cache);
    assert cache.coverageFiles[Database] != bound;
    targets := cache.OnWatchEvent(Database, Complete);
    assert bound.data == Partial && cache.Binding(Source) == Some(bound);
    second := cache.UpdateRegions(2, Source, Statements, 5);
    PartialCoverageDrawsTwoLines();
  }
}
