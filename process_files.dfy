/**
 * The file-level comparison of a test output prefix with the original one
 * (list_csv_files and compare_csv_files in
 * laminar_floating_point_error/process.py). Files are matched by their
 * last path component; the ETags S3 reports are compared as opaque
 * strings, and only a pair whose ETags differ gets a cell-level comparison.
 */
module ProcessFiles {
  import opened Wrappers
  import opened Text
  import opened Interrupt
  import opened ProcessCompare

  /**
   * What S3 answers: the keys a listing of a prefix returns (None when the
   * call raises), the ETag `head_object` reports for a key with its quotes
   * stripped (None when the call raises), and what downloading a key yields.
   */
  datatype Store = Store(listing: string -> Option<seq<string>>, etag: string -> Option<string>, fetch: string -> Fetch)

  ghost predicate StoreOk(store: Store) { forall k :: FetchOk(store.fetch(k)) }

  /** The prefix with a trailing "/", as the listing is asked for it. */
  function Directory(prefix: string): (r: string)
    ensures EndsWith(r, "/")
  {
    if EndsWith(prefix, "/") then prefix else prefix + "/"
  }

  function CsvKeys(keys: seq<string>): seq<string>
  {
    if keys == [] then [] else CsvKeys(keys[..|keys| - 1]) + (if EndsWith(keys[|keys| - 1], ".csv") then [keys[|keys| - 1]] else [])
  }

  /**
   * The keys ending in ".csv" in listing order; [] when the listing raises.
   * A prefix that is not a string (None here) makes `endswith` raise inside
   * the same handler.
   */
  function CsvFiles(store: Store, prefix: Option<string>): seq<string>
  {
    if prefix.None? then []
    else match store.listing(Directory(prefix.value)) case None => [] case Some(keys) => CsvKeys(keys)
  }

  /** list_csv_files */
  method ListCsvFiles(store: Store, prefix: Option<string>) returns (files: seq<string>)
    ensures files == CsvFiles(store, prefix)
  {
    if prefix.None? {
      return [];
    }
    var listed := store.listing(Directory(prefix.value));
    if listed.None? {
      return [];
    }
    var keys := listed.value;
    files := [];
    var i := 0;
    while i < |keys|
      invariant i <= |keys| && files == CsvKeys(keys[..i])
    {
      assert keys[..i + 1][..i] == keys[..i];
      if EndsWith(keys[i], ".csv") {
        files := files + [keys[i]];
      }
      i := i + 1;
    }
    assert keys[..i] == keys;
  }

  /** The listing filter keeps exactly the ".csv" keys, in their order. */
  lemma {:induction false} CsvKeysFilter(keys: seq<string>)
    ensures forall k :: k in CsvKeys(keys) <==> k in keys && EndsWith(k, ".csv")
    ensures |CsvKeys(keys)| <= |keys|
  {
    if keys != [] {
      CsvKeysFilter(keys[..|keys| - 1]);
      assert keys == keys[..|keys| - 1] + [keys[|keys| - 1]];
    }
  }

  /** `Path(key).name`: the text after the last "/". */
  function NameOf(key: string): string
  {
    var parts := Split(key, '/');
    parts[|parts| - 1]
  }

  /** A dict from names to keys, in insertion order. */
  type Names = seq<(string, string)>

  function Find(m: Names, name: string): Option<string>
  {
    if m == [] then None else if m[0].0 == name then Some(m[0].1) else Find(m[1..], name)
  }

  /** `m[name] = key`: an existing name keeps its place and takes the new key. */
  function Put(m: Names, name: string, key: string): Names
  {
    if m == [] then [(name, key)]
    else if m[0].0 == name then [(name, key)] + m[1..]
    else [m[0]] + Put(m[1..], name, key)
  }

  /** `{Path(f).name: f for f in files}`. */
  function NameMap(files: seq<string>): Names
  {
    if files == [] then [] else Put(NameMap(files[..|files| - 1]), NameOf(files[|files| - 1]), files[|files| - 1])
  }

  /** The names of `a`, in order, that `b` lacks. */
  function OnlyIn(a: Names, b: Names): seq<string>
  {
    if a == [] then [] else (if Find(b, a[0].0).None? then [a[0].0] else []) + OnlyIn(a[1..], b)
  }

  /** files_to_compare: the names of `a`, in order, that `b` has, with both keys. */
  function InBoth(a: Names, b: Names): seq<(string, string, string)>
  {
    if a == [] then []
    else
      (if Find(b, a[0].0).Some? then [(a[0].0, a[0].1, Find(b, a[0].0).value)] else []) + InBoth(a[1..], b)
  }

  /** The per-file dict; the summary of the cell comparison is present only when one ran. */
  datatype FileComparison = FileComparison(
    filename: string,
    newPath: string,
    originalPath: string,
    newEtag: string,
    originalEtag: string,
    etagsMatch: bool,
    cellDifferencesCount: Option<nat>,
    headersMatch: Option<bool>,
    comparisonError: Option<string>)

  datatype Files = Files(
    totalCompared: nat,
    withDifferences: nat,
    onlyInNew: seq<string>,
    onlyInOriginal: seq<string>,
    comparisons: seq<FileComparison>,
    detailed: seq<Detail>,
    error: Option<string>)

  const SkippedDetail: string := "Detailed comparison skipped due to interrupt"

  /** An ETag counts when it was reported and is not empty. */
  predicate Present(etag: Option<string>) { etag.Some? && etag.value != "" }

  /**
   * The body of the per-file loop for one pair with the flag clear at the
   * loop's check; the flag read before the detailed comparison is numbered
   * `read`.
   */
  function FileStep(store: Store, pair: (string, string, string), acc: Files, s: Shutdown, read: nat): (Files, nat)
    requires StoreOk(store)
  {
    var (name, newPath, originalPath) := pair;
    var ne, oe := store.etag(newPath), store.etag(originalPath);
    if !(Present(ne) && Present(oe)) then (acc, read)
    else if ne.value == oe.value then
      (acc.(totalCompared := acc.totalCompared + 1,
            comparisons := acc.comparisons + [FileComparison(name, newPath, originalPath, ne.value, oe.value, true, None, None, None)]),
       read)
    else if IsSet(s, read) then
      (acc.(totalCompared := acc.totalCompared + 1, withDifferences := acc.withDifferences + 1,
            comparisons := acc.comparisons + [FileComparison(name, newPath, originalPath, ne.value, oe.value, false, None, None, Some(SkippedDetail))]),
       read + 1)
    else
      var (d, read') := CompareContents(name, store.fetch(newPath), store.fetch(originalPath), s, read + 1);
      var count := if d.total.Some? then d.total.value else 0;
      var headers := if d.headersMatch.Some? then d.headersMatch.value else true;
      var error := if d.error.Some? && d.error.value != "" then d.error else None;
      (acc.(totalCompared := acc.totalCompared + 1, withDifferences := acc.withDifferences + 1,
            comparisons := acc.comparisons + [FileComparison(name, newPath, originalPath, ne.value, oe.value, false, Some(count), Some(headers), error)],
            detailed := acc.detailed + [d]),
       read')
  }

  /** The per-file loop from pair k on, checking the flag before each file. */
  function FilesFrom(store: Store, pairs: seq<(string, string, string)>, k: nat, acc: Files, s: Shutdown, read: nat): (Files, nat)
    requires StoreOk(store) && k <= |pairs|
    decreases |pairs| - k
  {
    if k == |pairs| then (acc, read)
    else if IsSet(s, read) then (acc.(error := Some(InterruptedMessage)), read + 1)
    else
      var (acc', read') := FileStep(store, pairs[k], acc, s, read + 1);
      FilesFrom(store, pairs, k + 1, acc', s, read')
  }

  /** compare_csv_files, from flag read number `read` on. */
  function CompareFiles(store: Store, newPrefix: string, originalPrefix: Option<string>, s: Shutdown, read: nat): (Files, nat)
    requires StoreOk(store)
  {
    if IsSet(s, read) then (Files(0, 0, [], [], [], [], Some(InterruptedMessage)), read + 1)
    else
      var newNames, originalNames := NameMap(CsvFiles(store, Some(newPrefix))), NameMap(CsvFiles(store, originalPrefix));
      FilesFrom(store, InBoth(newNames, originalNames), 0,
                Files(0, 0, OnlyIn(newNames, originalNames), OnlyIn(originalNames, newNames), [], [], None), s, read + 1)
  }

  /** The loop that collects the names of `a` missing from `b`. */
  method CollectOnlyIn(a: Names, b: Names) returns (only: seq<string>)
    ensures only == OnlyIn(a, b)
  {
    only := [];
    var i := 0;
    while i < |a|
      invariant i <= |a| && only + OnlyIn(a[i..], b) == OnlyIn(a, b)
    {
      assert a[i..][1..] == a[i + 1..];
      if Find(b, a[i].0).None? {
        only := only + [a[i].0];
      }
      i := i + 1;
    }
  }

  /** compare_csv_files */
  method CompareCsvFiles(store: Store, newPrefix: string, originalPrefix: Option<string>, s: Shutdown, read: nat)
    returns (result: Files, read': nat)
    requires StoreOk(store)
    ensures (result, read') == CompareFiles(store, newPrefix, originalPrefix, s, read)
  {
    if IsSet(s, read) {
      return Files(0, 0, [], [], [], [], Some(InterruptedMessage)), read + 1;
    }
    var newFiles := ListCsvFiles(store, Some(newPrefix));
    var originalFiles := ListCsvFiles(store, originalPrefix);
    var newNames, originalNames := NameMap(newFiles), NameMap(originalFiles);
    var onlyNew := CollectOnlyIn(newNames, originalNames);
    var onlyOriginal := CollectOnlyIn(originalNames, newNames);
    var pairs := InBoth(newNames, originalNames);
    result := Files(0, 0, onlyNew, onlyOriginal, [], [], None);
    read' := read + 1;
    var k := 0;
    while k < |pairs|
      invariant k <= |pairs|
      invariant FilesFrom(store, pairs, 0, Files(0, 0, onlyNew, onlyOriginal, [], [], None), s, read + 1)
             == FilesFrom(store, pairs, k, result, s, read')
      decreases |pairs| - k
    {
      if IsSet(s, read') {
        result := result.(error := Some(InterruptedMessage));
        read' := read' + 1;
        return;
      }
      result, read' := CompareFile(store, pairs[k], result, s, read' + 1);
      k := k + 1;
    }
  }

  /** The body of the per-file loop. */
  method CompareFile(store: Store, pair: (string, string, string), acc: Files, s: Shutdown, read: nat)
    returns (result: Files, read': nat)
    requires StoreOk(store)
    ensures (result, read') == FileStep(store, pair, acc, s, read)
  {
    var (name, newPath, originalPath) := pair;
    var ne, oe := store.etag(newPath), store.etag(originalPath);
    result, read' := acc, read;
    if Present(ne) && Present(oe) {
      result := result.(totalCompared := result.totalCompared + 1);
      var comparison := FileComparison(name, newPath, originalPath, ne.value, oe.value, ne.value == oe.value, None, None, None);
      if ne.value != oe.value {
        result := result.(withDifferences := result.withDifferences + 1);
        if IsSet(s, read') {
          comparison := comparison.(comparisonError := Some(SkippedDetail));
          read' := read' + 1;
        } else {
          var d;
          d, read' := CompareCsvContents(name, store.fetch(newPath), store.fetch(originalPath), s, read' + 1);
          result := result.(detailed := result.detailed + [d]);
          comparison := comparison.(cellDifferencesCount := Some(if d.total.Some? then d.total.value else 0),
                                    headersMatch := Some(if d.headersMatch.Some? then d.headersMatch.value else true));
          if d.error.Some? && d.error.value != "" {
            comparison := comparison.(comparisonError := d.error);
          }
        }
      }
      result := result.(comparisons := result.comparisons + [comparison]);
    }
  }
}

/** What compare_csv_files promises about the groups it forms and the counts it reports. */
module ProcessFilesFacts {
  import opened Wrappers
  import opened Interrupt
  import opened ProcessCompare
  import opened ProcessFiles

  /** A name occurs at most once in the dict. */
  predicate Distinct(m: Names)
  {
    m == [] || (Find(m[1..], m[0].0).None? && Distinct(m[1..]))
  }

  lemma {:induction false} FindPut(m: Names, name: string, key: string, other: string)
    ensures Find(Put(m, name, key), other) == if other == name then Some(key) else Find(m, other)
  {
    if m != [] && m[0].0 != name {
      FindPut(m[1..], name, key, other);
    }
  }

  lemma {:induction false} PutDistinct(m: Names, name: string, key: string)
    requires Distinct(m)
    ensures Distinct(Put(m, name, key))
  {
    if m != [] && m[0].0 != name {
      PutDistinct(m[1..], name, key);
      FindPut(m[1..], name, key, m[0].0);
      assert Put(m, name, key)[1..] == Put(m[1..], name, key);
    }
  }

  /** Some file of the list has the name. */
  ghost predicate Named(files: seq<string>, n: string)
  {
    exists i :: 0 <= i < |files| && NameOf(files[i]) == n
  }

  /** The last file of the list with the name: the reference the dict is checked against. */
  function LastNamed(files: seq<string>, n: string): Option<string>
  {
    if files == [] then None
    else if NameOf(files[|files| - 1]) == n then Some(files[|files| - 1])
    else LastNamed(files[..|files| - 1], n)
  }

  lemma {:induction false} LastNamedExists(files: seq<string>, n: string)
    ensures LastNamed(files, n).Some? <==> Named(files, n)
  {
    if files != [] && NameOf(files[|files| - 1]) != n {
      var init := files[..|files| - 1];
      LastNamedExists(init, n);
      if Named(files, n) {
        var i :| 0 <= i < |files| && NameOf(files[i]) == n;
        assert init[i] == files[i];
      }
      if Named(init, n) {
        var i :| 0 <= i < |init| && NameOf(init[i]) == n;
        assert init[i] == files[i];
      }
    }
  }

  lemma {:induction false} LastNamedIsLast(files: seq<string>, n: string)
    requires LastNamed(files, n).Some?
    ensures exists i :: 0 <= i < |files| && files[i] == LastNamed(files, n).value && NameOf(files[i]) == n
                        && forall j :: i < j < |files| ==> NameOf(files[j]) != n
  {
    var last := |files| - 1;
    if NameOf(files[last]) != n {
      var init := files[..last];
      LastNamedIsLast(init, n);
      var i :| 0 <= i < |init| && init[i] == LastNamed(init, n).value && NameOf(init[i]) == n
        && forall j :: i < j < |init| ==> NameOf(init[j]) != n;
      assert files[i] == init[i];
      assert forall j :: i < j < last ==> files[j] == init[j];
    } else {
      assert files[last] == LastNamed(files, n).value;
    }
  }

  /**
   * The dict comprehension keeps, for each name, the last file with that
   * name, and holds no name twice.
   */
  lemma {:induction false} NameMapFind(files: seq<string>, n: string)
    ensures Distinct(NameMap(files))
    ensures Find(NameMap(files), n) == LastNamed(files, n)
  {
    if files != [] {
      var init, last := files[..|files| - 1], files[|files| - 1];
      NameMapFind(init, n);
      PutDistinct(NameMap(init), NameOf(last), last);
      FindPut(NameMap(init), NameOf(last), last, n);
    }
  }

  /** The names of `a` that `b` lacks. */
  lemma {:induction false} OnlyInMembers(a: Names, b: Names, n: string)
    ensures n in OnlyIn(a, b) <==> Find(a, n).Some? && Find(b, n).None?
  {
    if a != [] {
      OnlyInMembers(a[1..], b, n);
    }
  }

  /** The names of `a` that `b` has, each with its key in `a` and in `b`. */
  lemma {:induction false} InBothMembers(a: Names, b: Names, n: string)
    requires Distinct(a)
    ensures (exists p :: p in InBoth(a, b) && p.0 == n) <==> Find(a, n).Some? && Find(b, n).Some?
    ensures forall p :: p in InBoth(a, b) ==> Find(a, p.0) == Some(p.1) && Find(b, p.0) == Some(p.2)
  {
    if a != [] {
      InBothMembers(a[1..], b, n);
      InBothMembers(a[1..], b, a[0].0);
      if Find(b, a[0].0).Some? {
        assert InBoth(a, b)[0] == (a[0].0, a[0].1, Find(b, a[0].0).value);
      }
    }
  }

  /**
   * The three groups of compare_csv_files partition the names: a name of a
   * new file is either only in new or compared, never both, and likewise
   * for the original files; a compared name pairs the last new file and the
   * last original file of that name.
   */
  lemma {:induction false} GroupsPartition(newFiles: seq<string>, originalFiles: seq<string>, n: string)
    ensures var newNames, originalNames := NameMap(newFiles), NameMap(originalFiles);
      (n in OnlyIn(newNames, originalNames) <==> Named(newFiles, n) && !Named(originalFiles, n))
      && (n in OnlyIn(originalNames, newNames) <==> Named(originalFiles, n) && !Named(newFiles, n))
      && ((exists p :: p in InBoth(newNames, originalNames) && p.0 == n) <==> Named(newFiles, n) && Named(originalFiles, n))
  {
    NameMapFind(newFiles, n);
    NameMapFind(originalFiles, n);
    LastNamedExists(newFiles, n);
    LastNamedExists(originalFiles, n);
    OnlyInMembers(NameMap(newFiles), NameMap(originalFiles), n);
    OnlyInMembers(NameMap(originalFiles), NameMap(newFiles), n);
    InBothMembers(NameMap(newFiles), NameMap(originalFiles), n);
  }

  /** What each per-file dict of compare_csv_files satisfies. */
  predicate WellFormed(c: FileComparison)
  {
    c.newEtag != "" && c.originalEtag != ""
    && (c.etagsMatch <==> c.newEtag == c.originalEtag)
    && (c.etagsMatch ==> c.cellDifferencesCount.None? && c.headersMatch.None? && c.comparisonError.None?)
    && (c.cellDifferencesCount.Some? <==> c.headersMatch.Some?)
  }

  /** The number of comparisons whose ETags differ. */
  function Differing(cs: seq<FileComparison>): nat
  {
    if cs == [] then 0 else Differing(cs[..|cs| - 1]) + (if cs[|cs| - 1].etagsMatch then 0 else 1)
  }

  /** The number of comparisons that carry a cell-level summary. */
  function Summarised(cs: seq<FileComparison>): nat
  {
    if cs == [] then 0 else Summarised(cs[..|cs| - 1]) + (if cs[|cs| - 1].cellDifferencesCount.Some? then 1 else 0)
  }

  /**
   * The counters agree with the per-file list: one entry per counted file,
   * `files_with_differences` the entries whose ETags differ, and one
   * detailed comparison per entry with a cell-level summary.
   */
  predicate Consistent(r: Files)
  {
    r.totalCompared == |r.comparisons|
    && r.withDifferences == Differing(r.comparisons)
    && |r.detailed| == Summarised(r.comparisons)
    && forall i :: 0 <= i < |r.comparisons| ==> WellFormed(r.comparisons[i])
  }

  lemma {:induction false} CountsOrdered(cs: seq<FileComparison>)
    requires forall i :: 0 <= i < |cs| ==> WellFormed(cs[i])
    ensures Summarised(cs) <= Differing(cs) <= |cs|
  {
    if cs != [] {
      CountsOrdered(cs[..|cs| - 1]);
    }
  }

  /** The pairs from k on whose two ETags are both reported and non-empty. */
  function Countable(store: Store, pairs: seq<(string, string, string)>, k: nat): (r: nat)
    requires k <= |pairs|
    ensures r <= |pairs| - k
    decreases |pairs| - k
  {
    if k == |pairs| then 0
    else (if Present(store.etag(pairs[k].1)) && Present(store.etag(pairs[k].2)) then 1 else 0) + Countable(store, pairs, k + 1)
  }

  lemma {:induction false} FileStepKeeps(store: Store, pair: (string, string, string), acc: Files, s: Shutdown, read: nat)
    requires StoreOk(store) && Consistent(acc)
    ensures var r := FileStep(store, pair, acc, s, read).0;
      Consistent(r) && r.onlyInNew == acc.onlyInNew && r.onlyInOriginal == acc.onlyInOriginal
  {
    var r := FileStep(store, pair, acc, s, read).0;
    if r != acc {
      assert r.comparisons[..|r.comparisons| - 1] == acc.comparisons;
    }
  }

  lemma {:induction false} FileStepCount(store: Store, pair: (string, string, string), acc: Files, s: Shutdown, read: nat)
    requires StoreOk(store)
    ensures var (r, read') := FileStep(store, pair, acc, s, read);
      read <= read' && r.error == acc.error
      && r.totalCompared == acc.totalCompared + (if Present(store.etag(pair.1)) && Present(store.etag(pair.2)) then 1 else 0)
  {
  }

  lemma {:induction false} FilesFromKeeps(store: Store, pairs: seq<(string, string, string)>, k: nat, acc: Files, s: Shutdown, read: nat)
    requires StoreOk(store) && k <= |pairs| && Consistent(acc)
    ensures var r := FilesFrom(store, pairs, k, acc, s, read).0;
      Consistent(r) && r.onlyInNew == acc.onlyInNew && r.onlyInOriginal == acc.onlyInOriginal
    decreases |pairs| - k
  {
    if k < |pairs| && !IsSet(s, read) {
      var next := FileStep(store, pairs[k], acc, s, read + 1);
      FileStepKeeps(store, pairs[k], acc, s, read + 1);
      FilesFromKeeps(store, pairs, k + 1, next.0, s, next.1);
    }
  }

  lemma {:induction false} FilesFromCount(store: Store, pairs: seq<(string, string, string)>, k: nat, acc: Files, s: Shutdown, read: nat)
    requires StoreOk(store) && k <= |pairs| && acc.error.None?
    ensures var (r, read') := FilesFrom(store, pairs, k, acc, s, read);
      read <= read'
      && r.totalCompared <= acc.totalCompared + Countable(store, pairs, k)
      && (r.error.Some? ==> read < read' && r.error == Some(InterruptedMessage) && IsSet(s, read' - 1))
      && (r.error.None? ==> r.totalCompared == acc.totalCompared + Countable(store, pairs, k))
    decreases |pairs| - k
  {
    if k < |pairs| && !IsSet(s, read) {
      var next := FileStep(store, pairs[k], acc, s, read + 1);
      FileStepCount(store, pairs[k], acc, s, read + 1);
      FilesFromCount(store, pairs, k + 1, next.0, s, next.1);
    }
  }

  /**
   * compare_csv_files: a flag set at the start yields nothing but the
   * interrupt error; otherwise files_with_differences <= total_files_compared
   * <= the number of files in both prefixes, every counted file has two
   * non-empty ETags and its match flag says whether they are equal, a
   * detailed comparison exists only for a file whose ETags differ, and the
   * only error is the interrupt, seen on the last flag read. Without it,
   * every file in both prefixes with two ETags is counted.
   */
  lemma {:induction false} CompareFilesOutcome(store: Store, newPrefix: string, originalPrefix: Option<string>, s: Shutdown, read: nat)
    requires StoreOk(store)
    ensures var (r, read') := CompareFiles(store, newPrefix, originalPrefix, s, read);
      var pairs := InBoth(NameMap(CsvFiles(store, Some(newPrefix))), NameMap(CsvFiles(store, originalPrefix)));
      read < read' && Consistent(r)
      && |r.detailed| <= r.withDifferences <= r.totalCompared <= |pairs|
      && (IsSet(s, read) ==> r == Files(0, 0, [], [], [], [], Some(InterruptedMessage)))
      && (r.error.Some? ==> r.error == Some(InterruptedMessage) && IsSet(s, read' - 1))
      && (r.error.None? ==> r.totalCompared == Countable(store, pairs, 0))
  {
    var (r, read') := CompareFiles(store, newPrefix, originalPrefix, s, read);
    if !IsSet(s, read) {
      var newNames, originalNames := NameMap(CsvFiles(store, Some(newPrefix))), NameMap(CsvFiles(store, originalPrefix));
      var pairs := InBoth(newNames, originalNames);
      var start := Files(0, 0, OnlyIn(newNames, originalNames), OnlyIn(originalNames, newNames), [], [], None);
      FilesFromKeeps(store, pairs, 0, start, s, read + 1);
      FilesFromCount(store, pairs, 0, start, s, read + 1);
    }
    CountsOrdered(r.comparisons);
  }
}
