# python-coverage for Sublime Text, modelled in Dafny

The plugin highlights the lines of an open Python file that coverage.py recorded as not
executed. Its state is the module-level `CACHE`, made of four dictionaries:

- the watched folders;
- the loaded `.coverage` databases, in insertion order;
- the binding of a source file to the database object that measures it;
- the views registered per path.

This model keeps them as the fields of one class, `Registry.Cache`. The rules that read and
update them are modelled as methods and functions of that class and the modules under it:

- folder discovery (`update_available_coverage_files`);
- routing of a file-watch event (`_FileWatcher._update`);
- binding a view's file to a database and registering the view (`_update_regions`);
- the missing-line computation (`CoverageFile.missing_lines`);
- turning missing lines into line-region indices;
- the gutter hover test;
- the setting toggle;
- teardown (`plugin_unloaded`).

Modules, in dependency order:

- `Wrappers`: `Option`.
- `Lines`: `sorted(list(s), reverse=True)` on a set of line numbers, proved to be the unique
  strictly descending enumeration of the set.
- `Coverage`: the database snapshot (measured files and executed lines per file),
  `contains_file`, `missing_lines`, and the `CoverageFile` class whose `update()` changes
  the object in place.
- `Regions`: the region update a render produces, Python list indexing (negative indices
  included), the inclusive `Region.contains`, and `on_hover`.
- `Paths`: Python's `in` on strings and `str.endswith`.
- `Discovery`: which folders one discovery pass reaches, and how registering the glob
  results extends the insertion-ordered key list.
- `Registry`: the `Cache` class and the settings object.
- `Scenarios`: concrete runs of the model.

The model follows the code as written, including where it departs from what its comments
suggest:

- A folder counts as already watched if some watched folder string is a substring of it.
  So "/w/p" also blocks "/w/pkg".
- The first such folder ends the whole pass (`return`), so later folders are not scanned.
- The guard `coverage_file not in CACHE["coverage_files"]` looks a `Path` up among `str`
  keys and is always true. A database found again is therefore reloaded into a new object,
  which takes the old entry's place in the order.
- `coverage_for_file` stores the `CoverageFile` object, not its key (line 281). A binding
  made before a rediscovery therefore keeps the old object, which later watch events no
  longer reload.
- After a reload, the watcher's loop (lines 80-82) runs over the views registered under the
  database path. Views are registered under the source path (line 288), so the two rarely
  meet. When they do, the loop's `handler()` is a call on a view, which is not callable, so
  the loop raises on its first view and redraws nothing. `OnWatchEvent` returns the set the
  loop runs over; it does not model that call.

`Scenarios.StaleBindingAfterRediscovery` puts the binding and the reload together on a
concrete example. In this model a CoverageFile's data changes only through `update()`, so
under that rule the lines stay highlighted after the tests covered them. The coverage
library's own data object might instead query the database file again on each `lines()` call.

Inputs the model takes as parameters:

- the value of `show_missing_lines`;
- the window's folders;
- a `FileSystem` value: the glob results per folder, which paths are regular files, and
  what the coverage library reads from each database;
- the statement lines of a view's text, and its line count;
- the snapshot an `update()` reads.

## Model

| member | source | states |
|---|---|---|
| Lines.SortedDescending | python-coverage.py:150 | the result has as many elements as the set, holds exactly the set's elements, and is strictly descending, so it has no duplicates |
| Lines.DescendingUnique | python-coverage.py:150 | two strictly descending sequences with the same elements are equal |
| Lines.SortedDescendingIs | python-coverage.py:150 | any strictly descending enumeration of a set is the sorted-descending list of that set |
| Coverage.ContainsFile | python-coverage.py:124-125 | `contains_file`: the path is one of the database's measured files (used by the scans, whose contracts state first-ness) |
| Coverage.MissingLines | python-coverage.py:127-150 | None exactly when the data has no line record for the file; otherwise a strictly descending list of exactly the statement lines not recorded as executed |
| Coverage.FullyCoveredIsEmpty | python-coverage.py:150 | when every statement line was executed the result is an empty list, not None |
| Coverage.EmptyMeansFullyCovered | python-coverage.py:150 | an empty result means every statement line was executed |
| Coverage.CoveringMoreLinesShrinksMissing | python-coverage.py:150 | recording more executed lines only removes lines from the missing list |
| Coverage.CoverageFile.constructor | python-coverage.py:113-119 | a new CoverageFile holds its path and the data read from it |
| Coverage.CoverageFile.Update | python-coverage.py:121-122 | `update()` replaces the object's snapshot, in place |
| Regions.PyIndex | python-coverage.py:303 | Python list indexing: an index is valid exactly from minus the length up to the length, a non-negative one selects itself, and the element selected is the index modulo the length |
| Regions.RegionIndices | python-coverage.py:303 | the comprehension succeeds exactly when every line number is a valid Python index after subtracting one; then one index per line, each inside the view |
| Regions.RegionIndicesOfLines | python-coverage.py:303 | for line numbers between 1 and the line count, the k-th region index is the k-th line minus one, and a descending list gives descending indices |
| Regions.LineBeyondViewFails | python-coverage.py:303 | a missing line beyond the view's last line makes the comprehension raise IndexError |
| Regions.Render | python-coverage.py:297-311 | the regions are erased exactly when there is no record or nothing is missing; a draw has one region per missing line; the render fails exactly when some line has no region |
| Regions.RenderDrawsLines | python-coverage.py:297-311 | missing lines that all lie in the view draw the regions `line - 1`, in the order of the missing list |
| Regions.Region.Contains | python-coverage.py:325 | `Region.contains`: the point lies between the two ends, both included, whichever end comes first |
| Regions.RegionContainsEnds | python-coverage.py:325 | a region contains both ends, and swapping the ends does not change what it contains |
| Regions.OnHover | python-coverage.py:313-328 | the tooltip is shown exactly when the mouse is in the gutter and some region contains the point |
| Paths.IsSubstring | python-coverage.py:217 | Python's `needle in hay` on strings; OccurrenceIsSubstring and SubstringHasOccurrence show it holds exactly when the needle occurs at some position |
| Paths.OccurrenceIsSubstring | python-coverage.py:217 | an occurrence of the needle at some position makes it a substring |
| Paths.SubstringHasOccurrence | python-coverage.py:217 | a substring occurs at some position |
| Paths.SubstringIsNotAncestry | python-coverage.py:217 | the substring test accepts every ancestor path, and also strings that are not ancestors |
| Paths.EndsWith | python-coverage.py:73 | `str.endswith`: the last characters of the string are the suffix |
| Paths.EndsWithConcat | python-coverage.py:73 | a string ends with a suffix exactly when it is some string followed by that suffix |
| Discovery.AlreadyWatched | python-coverage.py:217 | the `any(...)` test: some watched folder string is a substring of the folder |
| Discovery.Processed | python-coverage.py:209-218 | a pass registers no more folders than the window has |
| Discovery.ProcessedStops | python-coverage.py:209-218 | the pass registers every folder up to the first one that a watched folder string is a substring of, counting folders watched earlier in the same pass, and stops there |
| Discovery.Insert | python-coverage.py:230-232 | assigning a dictionary key: the old keys stay in place, the new key is there afterwards and nothing else, and distinct keys stay distinct |
| Discovery.Register | python-coverage.py:225-232 | the keys after the loop over one folder's glob results, assigning each regular file in turn; RegisterKeys and RegisterExtends state what that gives |
| Discovery.RegisterAll | python-coverage.py:209-232 | the keys after registering the databases of each folder in turn; RegisterAllKeys and RegisterAllExtends state what that gives |
| Discovery.RegisterExtends | python-coverage.py:225-232 | registering only appends: the old keys keep their places |
| Discovery.RegisterAllExtends | python-coverage.py:209-232 | registering several folders only appends too |
| Discovery.RegisterKeys | python-coverage.py:225-232 | registering glob results keeps the keys distinct and the old keys in place, and adds exactly the regular files among them |
| Discovery.RegisterAllKeys | python-coverage.py:209-232 | registering several folders keeps the keys distinct and the old keys in place, and adds exactly the regular files found under them |
| Discovery.RegisterAllSnoc | python-coverage.py:209-232 | the databases of a further folder are registered after those of the earlier folders |
| Registry.ViewsOf | python-coverage.py:80 | the `defaultdict` lookup: the set stored under the path, or the empty set when there is none |
| Registry.Settings.Toggle | python-coverage.py:156 | the flag becomes its negation |
| Registry.Cache.constructor | python-coverage.py:17-23 | all four maps start empty |
| Registry.Cache.FirstMeasuring | python-coverage.py:279-282 | the key found is one of the dictionary's |
| Registry.Cache.FirstMeasuringIsFirst | python-coverage.py:279-286 | the key found is the earliest in insertion order whose database measures the file, and none is found exactly when no database measures it |
| Registry.Cache.ScanCoverageFiles | python-coverage.py:279-286 | the for/else scan returns the first database in insertion order that measures the file, and none exactly when no database does |
| Registry.Cache.BindView | python-coverage.py:276-290 | the cached binding is used when there is one; otherwise the first measuring database is cached; nothing is cached or registered when none measures the file; on success the view joins the handlers under the source path, other handler sets unchanged; the other dictionaries are unchanged |
| Registry.Cache.UpdateRegions | python-coverage.py:270-311 | no file name changes nothing; no binding erases the regions and changes nothing; a binding renders the missing lines of the bound database's data; the binding stays what it was |
| Registry.Cache.OnActivated | python-coverage.py:263-268 | with the setting off the regions are erased and nothing changes; otherwise `_update_regions` runs |
| Registry.Cache.OnWatchEvent | python-coverage.py:72-82 | an event whose path lacks the `.coverage` suffix or is not a key changes no data and the loop runs over no view; otherwise only that entry is reloaded, and the loop's set is the views under that same path |
| Registry.Cache.DiscoveredRegisters | python-coverage.py:220-232 | after a pass from a valid state, the folders it reached are watched, the old keys keep their places, exactly the regular files found under those folders are added, each holds a new object with the data read from it, and the keys stay distinct |
| Registry.Cache.WatchFolder | python-coverage.py:220-232 | one folder is watched, with its own handle, and its databases are registered after those of the folders before it |
| Registry.Cache.Store | python-coverage.py:230-232 | a new CoverageFile with the data read is stored under the path, a new key going last and an old one keeping its place, everything else unchanged |
| Registry.Cache.RegisterDatabases | python-coverage.py:225-232 | every regular file among the glob results gets a new object with the data read from it, keys in the order of registration, other entries untouched |
| Registry.Cache.UpdateAvailableCoverageFiles | python-coverage.py:205-232 | with the setting off nothing changes; otherwise the folders up to where the pass stops are watched and their databases registered, with bindings and handlers unchanged |
| Registry.Cache.Discover | python-coverage.py:209-232 | the loop watches and registers each folder in turn until the first already-watched one |
| Registry.Cache.PluginUnloaded | python-coverage.py:98-101 | all four dictionaries are empty afterwards |
| Scenarios.PartialCoverageDrawsTwoLines | python-coverage.py:127-150 | with lines 1, 2 and 4 of five covered, lines 5 and 3 are missing, and regions 4 and 2 are drawn |
| Scenarios.CompleteCoverageErases | python-coverage.py:297-300 | full coverage erases the regions |
| Scenarios.SiblingFolderEndsThePass | python-coverage.py:217-218 | with "/w/p" watched, a window on "/w/pkg" and "/x" registers nothing |
| Scenarios.FirstFolderIsRegistered | python-coverage.py:217-220 | with no folder watched, a one-folder window reaches its folder |
| Scenarios.ParentFolderIsScanned | python-coverage.py:217-220 | with "/w/p" watched, a window on the parent "/w" is scanned |
| Scenarios.OneDatabaseUnder | python-coverage.py:225-232 | on the scenario disk, either folder registers the one database alone |
| Scenarios.OpenFirstWindow | python-coverage.py:205-232 | a first window registers its database with the data on disk |
| Scenarios.FirstWindow | python-coverage.py:270-311 | activating a view binds its file to that database and draws the two missing lines |
| Scenarios.OpenParentWindow | python-coverage.py:225-232 | the parent window replaces the entry with a new object and leaves the binding alone |
| Scenarios.StaleBindingAfterRediscovery | python-coverage.py:76-82 | after rediscovery, the reload's loop runs over no view, and the next activation draws the lines from before |

## Left out

- The Sublime API is not modelled (`erase_regions`, `add_regions`, `view.lines`, `substr`, `show_popup`). A render yields a `RegionUpdate` value instead.
- Loading and saving settings are not modelled. The flag is a parameter, or a field of `Settings` for the toggle.
- The watchdog observer is not modelled (its start, stop, join and `schedule`). A watch is an opaque `WatchHandle`.
- The coverage library and its SQLite database format are not modelled. Reading a database is the `FileSystem`'s `Read`, and `update()` takes the new snapshot as input.
- `PythonParser` is foreign code, so the statement lines are an input.
- `Path.glob` and `is_file` enumerate the disk, so they are inputs carried by a `FileSystem` value.
- Timing and `print` output are not modelled.
- `plugin_loaded` is not modelled: wheel discovery, `sys.path` changes, and creating the observer and watcher.
- `WeakSet` garbage collection is not modelled: a view stays registered.
- The `*_async` threading of the callbacks is not modelled; every operation runs to completion alone.
- Registry.Cache.OnWatchEvent: it returns the set of views that the loop of lines 80-82 runs over, and does not model the loop's call `handler()._update_regions()`. That call is made on a view, which is not callable, so in the source it raises on the first view instead of redrawing it.
- Reading a database never fails in this model: `FileSystem.Read`, `Coverage.CoverageFile.Update` and the statement-line input are total. In the source, `data.read()` (line 119, run by the constructor at line 230) raises on a corrupt or half-written database. That ends the pass after line 220 has already put the folder in `open_folders`, so every later pass returns at lines 217-218 and the remaining databases under that folder are never registered. An `update()` that raises (line 79) likewise skips the views, and a `parse_source()` that raises (line 144) comes after line 288 has registered the view.
- Registry.Cache.UpdateAvailableCoverageFiles: it takes the window's folders as a list. The project callbacks that call it (lines 174-203) are not modelled separately, nor is the case of a view without a window, where nothing runs.
- The editor's `view.file_name()` is given as a string; "" stands for a view without a file name.
