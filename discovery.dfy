/**
 * The pure part of `update_available_coverage_files`: which folders one pass gets to, which
 * database paths it finds, and how registering them extends the insertion-ordered dictionary
 * of coverage files.
 */
module Discovery {
  import opened Paths
  import opened Coverage

  /**
   * The file system as one discovery pass sees it: what the recursive glob for files named `.coverage`
   * yields per folder, which paths `is_file()` accepts, and what the coverage library reads
   * from each database path.
   */
  datatype FileSystem = FileSystem(globbed: map<string, seq<string>>, regular: set<string>, contents: map<string, CoverageData>) {
    function Glob(folder: string): seq<string> {
      if folder in globbed then globbed[folder] else []
    }
    function Read(path: string): CoverageData {
      if path in contents then contents[path] else NoData
    }
  }

  /**
   * The membership test of line 217: some watched folder string is a substring of `folder`
   * (Python's `any(fold in folder for fold in open_folders)`).
   */
  predicate AlreadyWatched(watched: set<string>, folder: string) {
    exists w :: w in watched && IsSubstring(w, folder)
  }

  /** The set of strings a sequence holds. */
  function Elems(s: seq<string>): set<string> {
    set x | x in s
  }

  /**
   * How many of `folders` a pass registers before its `return`: it stops at the first folder
   * that a watched folder, including one registered earlier in the same pass, is a substring of.
   */
  function Processed(watched: set<string>, folders: seq<string>): (k: nat)
    ensures k <= |folders|
    decreases |folders|
  {
    if folders == [] || AlreadyWatched(watched, folders[0]) then 0
    else 1 + Processed(watched + {folders[0]}, folders[1..])
  }

  /**
   * Processed stops exactly at the first folder already watched, counting the folders the
   * pass itself watched before it.
   */
  lemma {:induction false} ProcessedStops(watched: set<string>, folders: seq<string>)
    ensures forall j :: 0 <= j < Processed(watched, folders) ==>
      !AlreadyWatched(watched + Elems(folders[..j]), folders[j])
    ensures Processed(watched, folders) < |folders| ==>
      AlreadyWatched(watched + Elems(folders[..Processed(watched, folders)]), folders[Processed(watched, folders)])
    decreases |folders|
  {
    assert folders[..0] == [];
    if folders != [] && !AlreadyWatched(watched, folders[0]) {
      ProcessedStops(watched + {folders[0]}, folders[1..]);
      forall j | 1 <= j <= |folders|
        ensures watched + {folders[0]} + Elems(folders[1..][..j - 1]) == watched + Elems(folders[..j])
      {
        assert folders[..j] == [folders[0]] + folders[1..][..j - 1];
      }
    }
  }

  /** `p` is a regular file the glob yields under one of `folders`. */
  predicate FoundIn(fs: FileSystem, folders: seq<string>, p: string) {
    exists f :: f in folders && p in fs.Glob(f) && p in fs.regular
  }

  /** Dictionary keys after assigning `d[p] = ...`: a new key goes last, an old one keeps its place. */
  function Insert(keys: seq<string>, p: string): (r: seq<string>)
    ensures keys <= r
    ensures forall q :: q in r <==> q in keys || q == p
    ensures Distinct(keys) ==> Distinct(r)
  {
    if p in keys then keys else keys + [p]
  }

  /**
   * The keys of `coverage_files` after the loop of lines 225-232 over the glob results `paths`:
   * each regular file among them is assigned in turn.
   */
  function Register(keys: seq<string>, fs: FileSystem, paths: seq<string>): seq<string>
    decreases |paths|
  {
    if paths == [] then keys
    else Register(if paths[0] in fs.regular then Insert(keys, paths[0]) else keys, fs, paths[1..])
  }

  /** The keys of `coverage_files` after registering the databases of each of `folders` in turn. */
  function RegisterAll(keys: seq<string>, fs: FileSystem, folders: seq<string>): seq<string>
    decreases |folders|
  {
    if folders == [] then keys
    else RegisterAll(Register(keys, fs, fs.Glob(folders[0])), fs, folders[1..])
  }

  /** The keys of a dictionary are pairwise distinct. */
  predicate Distinct(keys: seq<string>) {
    forall i, j :: 0 <= i < j < |keys| ==> keys[i] != keys[j]
  }

  /**
   * Registering keeps the keys distinct, leaves the old keys where they were, and the keys
   * afterwards are exactly the old ones and the regular files among `paths`.
   */
  lemma {:induction false} RegisterKeys(keys: seq<string>, fs: FileSystem, paths: seq<string>)
    requires Distinct(keys)
    ensures Distinct(Register(keys, fs, paths))
    ensures keys <= Register(keys, fs, paths)
    ensures forall p :: p in Register(keys, fs, paths) <==> p in keys || (p in paths && p in fs.regular)
    decreases |paths|
  {
    if paths != [] {
      var next := if paths[0] in fs.regular then Insert(keys, paths[0]) else keys;
      RegisterKeys(next, fs, paths[1..]);
      assert keys <= next;
      forall p ensures p in paths <==> p == paths[0] || p in paths[1..] {
        assert paths == [paths[0]] + paths[1..];
      }
    }
  }

  /**
   * Registering the databases of several folders keeps the keys distinct, leaves the old keys
   * where they were, and adds exactly the regular files found under those folders.
   */
  lemma {:induction false} RegisterAllKeys(keys: seq<string>, fs: FileSystem, folders: seq<string>)
    requires Distinct(keys)
    ensures Distinct(RegisterAll(keys, fs, folders))
    ensures keys <= RegisterAll(keys, fs, folders)
    ensures forall p :: p in RegisterAll(keys, fs, folders) <==> p in keys || FoundIn(fs, folders, p)
    decreases |folders|
  {
    if folders != [] {
      var next := Register(keys, fs, fs.Glob(folders[0]));
      RegisterKeys(keys, fs, fs.Glob(folders[0]));
      RegisterAllKeys(next, fs, folders[1..]);
      forall p ensures FoundIn(fs, folders, p) <==> (p in fs.Glob(folders[0]) && p in fs.regular) || FoundIn(fs, folders[1..], p) {
        if FoundIn(fs, folders, p) {
          var f :| f in folders && p in fs.Glob(f) && p in fs.regular;
          if f != folders[0] {
            assert f in folders[1..];
          }
        }
        if FoundIn(fs, folders[1..], p) {
          var f :| f in folders[1..] && p in fs.Glob(f) && p in fs.regular;
          assert f in folders;
        }
      }
    }
  }

  /** Registering only appends: the old keys stay where they were. */
  lemma {:induction false} RegisterExtends(keys: seq<string>, fs: FileSystem, paths: seq<string>)
    ensures keys <= Register(keys, fs, paths)
    decreases |paths|
  {
    if paths != [] {
      var next := if paths[0] in fs.regular then Insert(keys, paths[0]) else keys;
      RegisterExtends(next, fs, paths[1..]);
    }
  }

  /** Registering several folders only appends too. */
  lemma {:induction false} RegisterAllExtends(keys: seq<string>, fs: FileSystem, folders: seq<string>)
    ensures keys <= RegisterAll(keys, fs, folders)
    decreases |folders|
  {
    if folders != [] {
      RegisterExtends(keys, fs, fs.Glob(folders[0]));
      RegisterAllExtends(Register(keys, fs, fs.Glob(folders[0])), fs, folders[1..]);
    }
  }

  /** The keys listed before distinct keys are distinct themselves. */
  lemma DistinctPrefix(keys: seq<string>, longer: seq<string>)
    requires keys <= longer && Distinct(longer)
    ensures Distinct(keys)
  {
    forall i, j | 0 <= i < j < |keys| ensures keys[i] != keys[j] {
      assert keys[i] == longer[i] && keys[j] == longer[j];
    }
  }

  /** Finding under one more folder. */
  lemma FoundInSnoc(fs: FileSystem, folders: seq<string>, folder: string)
    ensures forall p :: FoundIn(fs, folders + [folder], p) <==>
      FoundIn(fs, folders, p) || (p in fs.Glob(folder) && p in fs.regular)
  {
    forall p ensures FoundIn(fs, folders + [folder], p) <==> FoundIn(fs, folders, p) || (p in fs.Glob(folder) && p in fs.regular) {
      if FoundIn(fs, folders + [folder], p) {
        var f :| f in folders + [folder] && p in fs.Glob(f) && p in fs.regular;
        if f != folder {
          assert f in folders;
        }
      }
      if FoundIn(fs, folders, p) {
        var f :| f in folders && p in fs.Glob(f) && p in fs.regular;
        assert f in folders + [folder];
      }
      if p in fs.Glob(folder) && p in fs.regular {
        assert folder in folders + [folder];
      }
    }
  }

  /** One more folder of a pass: Processed counts it and goes on with it watched. */
  lemma ProcessedStep(watched: set<string>, folders: seq<string>, i: nat)
    requires i < |folders| && !AlreadyWatched(watched, folders[i])
    ensures Processed(watched, folders[i..]) == 1 + Processed(watched + {folders[i]}, folders[i + 1..])
  {
    assert folders[i..][1..] == folders[i + 1..];
  }

  /** Registering the databases of one more folder registers them after all the others. */
  lemma {:induction false} RegisterAllSnoc(keys: seq<string>, fs: FileSystem, folders: seq<string>, folder: string)
    ensures RegisterAll(keys, fs, folders + [folder]) == Register(RegisterAll(keys, fs, folders), fs, fs.Glob(folder))
    decreases |folders|
  {
    if folders == [] {
      assert folders + [folder] == [folder];
      assert [folder][1..] == [];
    } else {
      assert (folders + [folder])[1..] == folders[1..] + [folder];
      RegisterAllSnoc(Register(keys, fs, fs.Glob(folders[0])), fs, folders[1..], folder);
    }
  }

  /** Found under a single folder. */
  lemma FoundInOne(fs: FileSystem, folder: string)
    ensures forall p :: FoundIn(fs, [folder], p) <==> p in fs.Glob(folder) && p in fs.regular
  {
    assert folder in [folder];
  }

  /** A prefix one element longer. */
  lemma TakeOneMore(s: seq<string>, i: nat)
    requires i < |s|
    ensures s[..i + 1] == s[..i] + [s[i]]
  {
  }
}
