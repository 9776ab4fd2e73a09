/**
 * One loaded `.coverage` database (the plugin's `CoverageFile`). The coverage library's data
 * object is abstracted to the snapshot it yields after `read()`: the measured file paths and,
 * per file that has a line record, the set of executed line numbers.
 */
module Coverage {
  import opened Wrappers
  import opened Lines

  /**
   * What `data.read()` leaves in memory. A file without an entry in `lines` is one for which
   * `data.lines(file)` returns `None` or raises `DataError`.
   */
  datatype CoverageData = CoverageData(measured: set<string>, lines: map<string, set<int>>)

  /** The snapshot coverage.py yields for a database with nothing recorded. */
  const NoData := CoverageData({}, map[])

  /** `contains_file`: the path is one of the database's measured files. */
  predicate ContainsFile(d: CoverageData, file: string) {
    file in d.measured
  }

  /**
   * `missing_lines`: `None` when the data has no line record for the file, otherwise the
   * statement lines not recorded as executed, largest first.
   */
  function MissingLines(d: CoverageData, file: string, statements: set<int>): (r: Option<seq<int>>)
    ensures r.None? <==> file !in d.lines
    ensures r.Some? ==> StrictlyDescending(r.value)
    ensures r.Some? ==> forall x :: x in r.value <==> x in statements && x !in d.lines[file]
  {
    if file !in d.lines then None
    else Some(SortedDescending(statements - d.lines[file]))
  }

  /** A file whose statements were all executed has an empty, not a missing, result. */
  lemma FullyCoveredIsEmpty(d: CoverageData, file: string, statements: set<int>)
    requires file in d.lines && statements <= d.lines[file]
    ensures MissingLines(d, file, statements) == Some([])
  {
    assert statements - d.lines[file] == {};
  }

  /** An empty result means every statement line was executed. */
  lemma EmptyMeansFullyCovered(d: CoverageData, file: string, statements: set<int>)
    requires MissingLines(d, file, statements) == Some([])
    ensures statements <= d.lines[file]
  {
    forall x | x in statements ensures x in d.lines[file] {
      assert x !in MissingLines(d, file, statements).value;
    }
  }

  /** Lines recorded as executed never appear among the missing lines. */
  lemma CoveringMoreLinesShrinksMissing(d: CoverageData, d': CoverageData, file: string, statements: set<int>)
    requires file in d.lines && file in d'.lines && d.lines[file] <= d'.lines[file]
    ensures forall x :: x in MissingLines(d', file, statements).value ==> x in MissingLines(d, file, statements).value
  {
  }

  /**
   * The loaded database. `update()` re-reads the same file into the same object, so every
   * holder of a reference to it sees the new snapshot.
   */
  class CoverageFile {
    const path: string
    var data: CoverageData

    constructor (path: string, data: CoverageData)
      ensures this.path == path && this.data == data
    {
      this.path := path;
      this.data := data;
    }

    /** `update()`: the in-memory snapshot becomes what the database now holds. */
    method Update(snapshot: CoverageData)
      modifies this
      ensures data == snapshot
    {
      data := snapshot;
    }
  }
}
