/**
 * The plugin's module-level `CACHE` and the rules that read and update it: folder discovery,
 * watch-event routing, binding a source file to its coverage file, view registration and
 * teardown; and the `show_missing_lines` setting that gates them.
 */
module Registry {
  import opened Wrappers
  import opened Paths
  import opened Coverage
  import opened Discovery
  import opened Regions

  /** An editor view, by its id. */
  type ViewId = nat

  /** What `FILE_OBSERVER.schedule(FileWatcher, folder, recursive=True)` returns. */
  datatype WatchHandle = WatchHandle(folder: string)

  /** The suffix a watch event's path must have to be routed. */
  const DatabaseSuffix := ".coverage"

  /** The views registered under `path`: `registered_view_event_handlers` is a defaultdict. */
  function ViewsOf(handlers: map<string, set<ViewId>>, path: string): set<ViewId> {
    if path in handlers then handlers[path] else {}
  }

  /** The fields of a Cache, as a value: the state a discovery pass starts from. */
  datatype Snapshot = Snapshot(openFolders: map<string, WatchHandle>, coverageKeys: seq<string>,
    coverageFiles: map<string, CoverageFile>, coverageForFile: map<string, CoverageFile>,
    handlers: map<string, set<ViewId>>, loaded: set<CoverageFile>)

  /** The plugin's settings object; only `show_missing_lines` is modelled. */
  class Settings {
    var showMissingLines: bool

    constructor (showMissingLines: bool)
      ensures this.showMissingLines == showMissingLines
    {
      this.showMissingLines := showMissingLines;
    }

    /** `ToggleMissingLinesCommand.run`: the flag becomes its negation. */
    method Toggle()
      modifies this
      ensures showMissingLines == !old(showMissingLines)
    {
      showMissingLines := !showMissingLines;
    }
  }

  /**
   * The watches after registering the folders `done` over `start`: those folders are watched
   * with their own handle and every other watch is as it was.
   */
  predicate WatchedAfter(start: map<string, WatchHandle>, done: seq<string>, watches: map<string, WatchHandle>) {
    && watches.Keys == start.Keys + Elems(done)
    && forall f :: f in watches ==> watches[f] == if f in done then WatchHandle(f) else start[f]
  }

  /**
   * The coverage files after registering the folders `done` over `start`: a path found under
   * them holds the data read from it, and every other entry is the object it was.
   */
  ghost predicate LoadedAfter(start: map<string, CoverageFile>, fs: FileSystem, done: seq<string>, files: map<string, CoverageFile>)
    reads files.Values
  {
    forall p :: p in files ==>
      if FoundIn(fs, done, p) then files[p].data == fs.Read(p) else p in start && files[p] == start[p]
  }

  /** Watching one more folder. */
  lemma WatchedStep(start: map<string, WatchHandle>, done: seq<string>, folder: string,
      watches: map<string, WatchHandle>, next: map<string, WatchHandle>)
    requires WatchedAfter(start, done, watches)
    requires next == watches[folder := WatchHandle(folder)]
    ensures WatchedAfter(start, done + [folder], next)
  {
    assert Elems(done + [folder]) == Elems(done) + {folder};
    forall f | f in next
      ensures next[f] == if f in done + [folder] then WatchHandle(f) else start[f]
    {
      if f != folder {
        assert f in watches;
        assert f in done + [folder] <==> f in done;
      }
    }
  }

  /** Loading the databases of one more folder. */
  lemma LoadedStep(start: map<string, CoverageFile>, fs: FileSystem, done: seq<string>, folder: string,
      files: map<string, CoverageFile>, next: map<string, CoverageFile>)
    requires LoadedAfter(start, fs, done, files)
    requires LoadedAfter(files, fs, [folder], next)
    ensures LoadedAfter(start, fs, done + [folder], next)
  {
    FoundInSnoc(fs, done, folder);
    FoundInOne(fs, folder);
  }

  /** The entries found under one more folder are, like those found before, none of `held`. */
  lemma DistinctStep(held: set<CoverageFile>, fs: FileSystem, done: seq<string>, folder: string,
      files: map<string, CoverageFile>, next: map<string, CoverageFile>)
    requires forall p :: p in files && FoundIn(fs, done, p) ==> files[p] !in held
    requires LoadedAfter(files, fs, [folder], next)
    requires forall p :: p in next && p in fs.Glob(folder) && p in fs.regular ==> next[p] !in held
    ensures forall p :: p in next && FoundIn(fs, done + [folder], p) ==> next[p] !in held
  {
    FoundInSnoc(fs, done, folder);
    FoundInOne(fs, folder);
  }

  /**
   * `CACHE`. The insertion-ordered dictionary `coverage_files` is `coverageKeys` (its keys in
   * insertion order) together with `coverageFiles`; `coverage_for_file` maps a source path to a
   * CoverageFile object, as the source stores the object and not its key.
   */
  class Cache {
    var openFolders: map<string, WatchHandle>
    var coverageKeys: seq<string>
    var coverageFiles: map<string, CoverageFile>
    var coverageForFile: map<string, CoverageFile>
    var handlers: map<string, set<ViewId>>
    /** Every CoverageFile object the cache has loaded so far. */
    ghost var Loaded: set<CoverageFile>

    /**
     * The listed keys are exactly the dictionary's keys, each listed once, and each entry holds
     * the CoverageFile loaded from the path it is stored under (so no two entries share one).
     */
    ghost predicate Valid()
      reads this
    {
      && (forall p :: p in coverageFiles <==> p in coverageKeys)
      && Distinct(coverageKeys)
      && (forall p :: p in coverageFiles ==> coverageFiles[p].path == p)
      && coverageFiles.Values <= Loaded
      && coverageForFile.Values <= Loaded
    }

    /** The CACHE literal of lines 17-23: every map empty. */
    constructor ()
      ensures Valid()
      ensures openFolders == map[] && coverageKeys == [] && coverageFiles == map[]
      ensures coverageForFile == map[] && handlers == map[]
      ensures Loaded == {}
    {
      openFolders, coverageKeys, coverageFiles := map[], [], map[];
      coverageForFile, handlers := map[], map[];
      Loaded := {};
    }

    /** The entry at position `i` of `coverage_files`. */
    ghost function EntryAt(i: nat): CoverageFile
      reads this
      requires Valid() && i < |coverageKeys|
    {
      coverageFiles[coverageKeys[i]]
    }

    /**
     * The first key, from position `i` on in insertion order, whose CoverageFile measures `file`.
     */
    ghost function FirstMeasuring(i: nat, file: string): (r: Option<string>)
      reads this, coverageFiles.Values
      requires Valid()
      ensures r.Some? ==> r.value in coverageFiles
      decreases |coverageKeys| - i
    {
      if i >= |coverageKeys| then None
      else if ContainsFile(EntryAt(i).data, file) then Some(coverageKeys[i])
      else FirstMeasuring(i + 1, file)
    }

    /**
     * FirstMeasuring finds the earliest entry from `i` on that measures `file`, and finds none
     * exactly when no entry from `i` on does.
     */
    lemma {:induction false} FirstMeasuringIsFirst(i: nat, file: string)
      requires Valid()
      ensures FirstMeasuring(i, file).Some? ==> exists j :: (i <= j < |coverageKeys|
        && coverageKeys[j] == FirstMeasuring(i, file).value
        && ContainsFile(EntryAt(j).data, file)
        && forall l :: i <= l < j ==> !ContainsFile(EntryAt(l).data, file))
      ensures FirstMeasuring(i, file).None? <==> forall l :: i <= l < |coverageKeys| ==> !ContainsFile(EntryAt(l).data, file)
      decreases |coverageKeys| - i
    {
      if i < |coverageKeys| && !ContainsFile(EntryAt(i).data, file) {
        FirstMeasuringIsFirst(i + 1, file);
      }
    }

    /**
     * The CoverageFile `_update_regions` would use for `file`: the cached one, or else the first
     * in insertion order that measures it.
     */
    ghost function Binding(file: string): Option<CoverageFile>
      reads this, coverageFiles.Values
      requires Valid()
    {
      if file in coverageForFile then Some(coverageForFile[file])
      else match FirstMeasuring(0, file)
        case None => None
        case Some(k) => Some(coverageFiles[k])
    }

    /**
     * The for/else scan of lines 279-286: the first CoverageFile in insertion order whose
     * `contains_file` accepts `file`, or `None` when none does.
     */
    method ScanCoverageFiles(file: string) returns (found: Option<CoverageFile>)
      requires Valid()
      ensures found.None? <==> FirstMeasuring(0, file).None?
      ensures found.None? <==> forall l :: 0 <= l < |coverageKeys| ==> !ContainsFile(EntryAt(l).data, file)
      ensures found.Some? ==> exists j :: (0 <= j < |coverageKeys| && found.value == EntryAt(j)
        && ContainsFile(found.value.data, file)
        && forall l :: 0 <= l < j ==> !ContainsFile(EntryAt(l).data, file))
      ensures found.Some? ==> found.value == coverageFiles[FirstMeasuring(0, file).value]
    {
      FirstMeasuringIsFirst(0, file);
      var i := 0;
      while i < |coverageKeys|
        invariant 0 <= i <= |coverageKeys|
        invariant FirstMeasuring(i, file) == FirstMeasuring(0, file)
      {
        var candidate := coverageFiles[coverageKeys[i]];
        if ContainsFile(candidate.data, file) {
          return Some(candidate);
        }
        i := i + 1;
      }
      return None;
    }

    /**
     * What `_update_regions` promises, given the binding `bound` the file had before: a view
     * without a file name changes nothing; otherwise a file with no binding erases the regions
     * and caches nothing, and a bound file is cached, the view joins the handlers under the
     * source path, and the regions are those of the missing lines its bound data gives.
     */
    twostate predicate RegionsUpdated(view: ViewId, fileName: string, bound: Option<CoverageFile>,
        statements: set<int>, lineCount: nat, u: RegionUpdate)
      reads this, if bound.Some? then {bound.value} else {}
    {
      && openFolders == old(openFolders)
      && coverageKeys == old(coverageKeys)
      && coverageFiles == old(coverageFiles)
      && Loaded == old(Loaded)
      && (fileName == "" ==>
            u == Untouched && coverageForFile == old(coverageForFile) && handlers == old(handlers))
      && (fileName != "" && bound == None ==>
            u == Erased && coverageForFile == old(coverageForFile) && handlers == old(handlers))
      && (fileName != "" && bound.Some? ==>
            && coverageForFile == old(coverageForFile)[fileName := bound.value]
            && handlers == old(handlers)[fileName := ViewsOf(old(handlers), fileName) + {view}]
            && u == Render(MissingLines(bound.value.data, fileName, statements), lineCount))
    }

    /**
     * Lines 276-290 of `_update_regions`: the file's CoverageFile is looked up, cached once
     * found, and the view is registered under the source path; nothing changes when there is
     * none. The result is the binding the file had, which is also the one it has now.
     */
    method BindView(view: ViewId, fileName: string) returns (bound: Option<CoverageFile>)
      requires Valid()
      modifies this
      ensures Valid()
      ensures bound == old(Binding(fileName)) && Binding(fileName) == bound
      ensures openFolders == old(openFolders) && coverageKeys == old(coverageKeys) && coverageFiles == old(coverageFiles)
      ensures Loaded == old(Loaded)
      ensures bound == None ==> coverageForFile == old(coverageForFile) && handlers == old(handlers)
      ensures bound.Some? ==> coverageForFile == old(coverageForFile)[fileName := bound.value]
      ensures bound.Some? ==> handlers == old(handlers)[fileName := ViewsOf(old(handlers), fileName) + {view}]
    {
      var coverageFile: CoverageFile;
      if fileName in coverageForFile {
        coverageFile := coverageForFile[fileName];
      } else {
        var found := ScanCoverageFiles(fileName);
        if found == None {
          return None;
        }
        coverageFile := found.value;
        coverageForFile := coverageForFile[fileName := coverageFile];
      }
      handlers := handlers[fileName := ViewsOf(handlers, fileName) + {view}];
      bound := Some(coverageFile);
    }

    /**
     * `_update_regions` for the view `view` showing `fileName` ("" for a view without one),
     * whose text has the statement lines `statements` and `lineCount` lines. A lookup, once
     * it succeeds, is cached, so the binding stays what it was.
     */
    method UpdateRegions(view: ViewId, fileName: string, statements: set<int>, lineCount: nat) returns (u: RegionUpdate)
      requires Valid()
      modifies this
      ensures Valid()
      ensures RegionsUpdated(view, fileName, old(Binding(fileName)), statements, lineCount, u)
      ensures fileName != "" ==> Binding(fileName) == old(Binding(fileName))
    {
      if fileName == "" {
        return Untouched;
      }
      var bound := BindView(view, fileName);
      if bound == None {
        return Erased;
      }
      var missing := MissingLines(bound.value.data, fileName, statements);
      u := Render(missing, lineCount);
    }

    /**
     * `on_activated_async` of a view: with the setting off the regions are erased and nothing
     * else happens; otherwise `_update_regions` runs.
     */
    method OnActivated(enabled: bool, view: ViewId, fileName: string, statements: set<int>, lineCount: nat) returns (u: RegionUpdate)
      requires Valid()
      modifies this
      ensures Valid()
      ensures !enabled ==> u == Erased && unchanged(this)
      ensures enabled ==> RegionsUpdated(view, fileName, old(Binding(fileName)), statements, lineCount, u)
    {
      if !enabled {
        return Erased;
      }
      u := UpdateRegions(view, fileName, statements, lineCount);
    }

    /**
     * `_FileWatcher._update`: an event for a path ending in ".coverage" that is a key of
     * `coverage_files` reloads that one entry, and `targets` is the set of views the loop of
     * lines 80-82 then runs over, those registered under that same path; any other event
     * changes nothing and the loop does not run. The set holds views, not callables, so the
     * loop's `handler()` would raise on its first element; that call is not part of the model.
     */
    method OnWatchEvent(path: string, snapshot: CoverageData) returns (targets: set<ViewId>)
      requires Valid()
      modifies if path in coverageFiles then {coverageFiles[path]} else {}
      ensures Valid()
      ensures !EndsWith(path, DatabaseSuffix) || path !in coverageFiles ==>
        targets == {} && forall p :: p in coverageFiles ==> coverageFiles[p].data == old(coverageFiles[p].data)
      ensures EndsWith(path, DatabaseSuffix) && path in coverageFiles ==>
        coverageFiles[path].data == snapshot && targets == ViewsOf(handlers, path)
      ensures forall p :: p in coverageFiles && p != path ==> coverageFiles[p].data == old(coverageFiles[p].data)
    {
      if !EndsWith(path, DatabaseSuffix) {
        return {};
      }
      if path !in coverageFiles {
        return {};
      }
      coverageFiles[path].Update(snapshot);
      targets := ViewsOf(handlers, path);
    }

    /** The cache's fields, as a value. */
    ghost function State(): Snapshot
      reads this
    {
      Snapshot(openFolders, coverageKeys, coverageFiles, coverageForFile, handlers, Loaded)
    }

    /**
     * The state registering the folders `done` leaves, given the state `start` it began in:
     * they are watched, their databases are registered in order, each with a CoverageFile
     * loaded after `start`, and every other entry is the object it was.
     */
    ghost predicate RegisteredFrom(start: Snapshot, done: seq<string>, fs: FileSystem)
      reads this, coverageFiles.Values
    {
      && coverageForFile == start.coverageForFile
      && handlers == start.handlers
      && WatchedAfter(start.openFolders, done, openFolders)
      && coverageKeys == RegisterAll(start.coverageKeys, fs, done)
      && LoadedAfter(start.coverageFiles, fs, done, coverageFiles)
      && forall p :: p in coverageFiles && FoundIn(fs, done, p) ==> coverageFiles[p] !in start.loaded
    }

    /** The state a discovery pass over `folders` from `start` leaves: the folders up to where it stops are registered. */
    ghost predicate Discovered(start: Snapshot, folders: seq<string>, fs: FileSystem)
      reads this, coverageFiles.Values
    {
      RegisteredFrom(start, folders[..Processed(start.openFolders.Keys, folders)], fs)
    }

    /**
     * What a discovery pass from `start` leaves, spelled out: the folders it got to are watched
     * as well, the dictionary keeps its old keys in place and gains exactly the regular files
     * found under those folders, each found path holding a new object with the data read from
     * it, and the keys stay distinct.
     */
    lemma DiscoveredRegisters(start: Snapshot, folders: seq<string>, fs: FileSystem)
      requires Valid() && Discovered(start, folders, fs)
      ensures var done := folders[..Processed(start.openFolders.Keys, folders)];
        && openFolders.Keys == start.openFolders.Keys + Elems(done)
        && Distinct(coverageKeys) && start.coverageKeys <= coverageKeys
        && (forall p :: p in coverageFiles <==> p in start.coverageKeys || FoundIn(fs, done, p))
        && (forall p :: p in coverageFiles && FoundIn(fs, done, p) ==>
              coverageFiles[p].data == fs.Read(p) && coverageFiles[p] !in start.loaded)
    {
      var done := folders[..Processed(start.openFolders.Keys, folders)];
      RegisterAllExtends(start.coverageKeys, fs, done);
      DistinctPrefix(start.coverageKeys, coverageKeys);
      RegisterAllKeys(start.coverageKeys, fs, done);
    }

    /**
     * Lines 220-232 for one folder not yet watched: the folder gets a watch and the databases
     * under it are registered, so that the folders registered since `start` are `done` and then
     * `folder`.
     */
    method WatchFolder(fs: FileSystem, folder: string, ghost start: Snapshot, ghost done: seq<string>)
      requires Valid() && RegisteredFrom(start, done, fs)
      modifies this
      ensures Valid() && RegisteredFrom(start, done + [folder], fs)
      ensures openFolders == old(openFolders)[folder := WatchHandle(folder)]
      ensures coverageKeys == Register(old(coverageKeys), fs, fs.Glob(folder))
      ensures fresh(Loaded - old(Loaded))
    {
      ghost var watched, files := openFolders, coverageFiles;
      RegisterAllSnoc(start.coverageKeys, fs, done, folder);
      openFolders := openFolders[folder := WatchHandle(folder)];
      RegisterDatabases(fs, fs.Glob(folder), start.loaded);
      FoundInOne(fs, folder);
      WatchedStep(start.openFolders, done, folder, watched, openFolders);
      LoadedStep(start.coverageFiles, fs, done, folder, files, coverageFiles);
      DistinctStep(start.loaded, fs, done, folder, files, coverageFiles);
    }

    /**
     * The assignment of lines 230-232: a CoverageFile newly loaded with `data` is stored under
     * `path`, a new key going last and an old one keeping its place.
     */
    method Store(path: string, data: CoverageData) returns (coverageFile: CoverageFile)
      requires Valid()
      modifies this
      ensures Valid()
      ensures fresh(coverageFile) && coverageFile.path == path && coverageFile.data == data
      ensures coverageFiles == old(coverageFiles)[path := coverageFile]
      ensures coverageKeys == Insert(old(coverageKeys), path)
      ensures Loaded == old(Loaded) + {coverageFile}
      ensures openFolders == old(openFolders) && coverageForFile == old(coverageForFile) && handlers == old(handlers)
    {
      coverageFile := new CoverageFile(path, data);
      coverageFiles := coverageFiles[path := coverageFile];
      coverageKeys := Insert(coverageKeys, path);
      Loaded := Loaded + {coverageFile};
    }

    /**
     * Lines 225-232: every regular file among the glob results `found` gets a freshly loaded
     * CoverageFile under its path, an already registered path included (its dictionary
     * position stays), because the guard `coverage_file not in CACHE["coverage_files"]`
     * looks a `Path` up among `str` keys and so always holds.
     */
    method RegisterDatabases(fs: FileSystem, found: seq<string>, ghost held: set<CoverageFile>)
      requires Valid()
      modifies this
      ensures Valid()
      ensures openFolders == old(openFolders) && coverageForFile == old(coverageForFile) && handlers == old(handlers)
      ensures coverageKeys == Register(old(coverageKeys), fs, found)
      ensures forall p :: p in coverageFiles ==>
        if p in found && p in fs.regular then coverageFiles[p].data == fs.Read(p)
        else p in old(coverageFiles) && coverageFiles[p] == old(coverageFiles[p])
      ensures forall p :: p in coverageFiles && p in found && p in fs.regular ==>
        fresh(coverageFiles[p]) && coverageFiles[p] !in held
      ensures fresh(Loaded - old(Loaded))
    {
      var j := 0;
      while j < |found|
        invariant 0 <= j <= |found|
        invariant Valid()
        invariant openFolders == old(openFolders) && coverageForFile == old(coverageForFile) && handlers == old(handlers)
        invariant Register(old(coverageKeys), fs, found) == Register(coverageKeys, fs, found[j..])
        invariant forall p :: p in coverageFiles ==>
          if p in found[..j] && p in fs.regular then coverageFiles[p].data == fs.Read(p)
          else p in old(coverageFiles) && coverageFiles[p] == old(coverageFiles[p])
        invariant forall p :: p in coverageFiles && p in found[..j] && p in fs.regular ==>
          fresh(coverageFiles[p]) && coverageFiles[p] !in held
        invariant fresh(Loaded - old(Loaded))
      {
        var path := found[j];
        assert found[j..][1..] == found[j + 1..];
        TakeOneMore(found, j);
        if path in fs.regular {
          var coverageFile := Store(path, fs.Read(path));
        }
        j := j + 1;
      }
      assert found[..j] == found;
    }

    /**
     * The loop invariant of a discovery pass from `start` that stops at `stop`: the first `i`
     * folders are registered, and what is left of the pass stops at the same place.
     */
    ghost predicate Progress(start: Snapshot, folders: seq<string>, i: nat, stop: nat, fs: FileSystem)
      reads this, coverageFiles.Values
      requires i <= |folders|
    {
      && i <= stop <= |folders|
      && Valid()
      && RegisteredFrom(start, folders[..i], fs)
      && stop == i + Processed(openFolders.Keys, folders[i..])
    }

    /**
     * `update_available_coverage_files` for a window whose folders are `folders`: with the
     * setting off nothing happens; otherwise a discovery pass runs.
     */
    method UpdateAvailableCoverageFiles(enabled: bool, folders: seq<string>, fs: FileSystem)
      requires Valid()
      modifies this
      ensures Valid()
      ensures !enabled ==> unchanged(this)
      ensures enabled ==> Discovered(old(State()), folders, fs) && fresh(Loaded - old(Loaded))
    {
      if enabled {
        Discover(folders, fs);
      }
    }

    /**
     * The loop of lines 209-232: each folder in turn is watched and its databases registered,
     * until the first folder that a watched folder string is a substring of, where the whole pass
     * ends: the source returns there rather than continuing, and as nothing follows the loop,
     * leaving it is the same.
     */
    method Discover(folders: seq<string>, fs: FileSystem)
      requires Valid()
      modifies this
      ensures Valid()
      ensures Discovered(old(State()), folders, fs)
      ensures fresh(Loaded - old(Loaded))
    {
      ghost var start := State();
      ghost var stop := Processed(openFolders.Keys, folders);
      var i := 0;
      assert folders[..0] == [];
      while i < |folders|
        invariant 0 <= i <= |folders|
        invariant Progress(start, folders, i, stop, fs)
        invariant fresh(Loaded - old(Loaded))
      {
        var folder := folders[i];
        if AlreadyWatched(openFolders.Keys, folder) {
          assert AlreadyWatched(openFolders.Keys, folders[i..][0]);
          assert stop == i;
          break;
        }
        ProcessedStep(openFolders.Keys, folders, i);
        TakeOneMore(folders, i);
        ghost var watched, loaded := openFolders.Keys, Loaded;
        WatchFolder(fs, folder, start, folders[..i]);
        assert openFolders.Keys == watched + {folder};
        assert Loaded - old(Loaded) <= (Loaded - loaded) + (loaded - old(Loaded));
        i := i + 1;
      }
      assert folders[..stop] == folders[..i];
    }

    /** `plugin_unloaded`: all four dictionaries are cleared. */
    method PluginUnloaded()
      modifies this
      ensures Valid()
      ensures openFolders == map[] && coverageKeys == [] && coverageFiles == map[]
      ensures coverageForFile == map[] && handlers == map[]
    {
      coverageFiles, coverageKeys := map[], [];
      openFolders := map[];
      handlers := map[];
      coverageForFile := map[];
    }
  }
}
