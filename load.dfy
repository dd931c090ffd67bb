/** Loading the sources from the configuration directories: every file of
    `repos.d` lists repo URLs and every file of `manifestUrls.d` lists
    manifest URLs. Failures are collected, never fatal to the other files. */
module Load {
  import opened Common
  import Config

  /** Why loading part of the configuration failed; each names the path
      concerned. Error details of the filesystem and the YAML parser are
      kept as text. */
  datatype LoadingError =
    | DirReading(detail: string, path: string)    // the directory could not be opened
    | DirNextEntry(detail: string, path: string)  // listing the directory failed
    | FileReading(detail: string, path: string)   // a file could not be read
    | Parsing(detail: string, path: string)       // a file is not a valid document

  /** The errors of one load of the sources, by kind of source. */
  datatype SourcesLoadingErrors = SourcesLoadingErrors(manifestUrls: seq<LoadingError>, repoUrls: seq<LoadingError>)
  {
    /** Whether no error occurred. */
    predicate IsEmpty(): (b: bool)
      ensures b <==> |manifestUrls| + |repoUrls| == 0
    {
      manifestUrls == [] && repoUrls == []
    }

    /** All the errors: the manifest URL ones, then the repo URL ones. */
    function All(): (r: seq<LoadingError>)
      ensures |r| == |manifestUrls| + |repoUrls|
      ensures forall i :: 0 <= i < |manifestUrls| ==> r[i] == manifestUrls[i]
      ensures forall j :: 0 <= j < |repoUrls| ==> r[|manifestUrls| + j] == repoUrls[j]
      ensures r == [] <==> IsEmpty()
    {
      manifestUrls + repoUrls
    }

    /** The summary message: the "no errors" text exactly when there are
        none, and otherwise a text ending in the fixed "errors have occurred"
        part. */
    function Fmt(): (msg: string)
      ensures IsEmpty() <==> msg == NO_ERRORS
      ensures !IsEmpty() ==> |msg| > |SOME_ERRORS| && msg[|msg| - |SOME_ERRORS|..] == SOME_ERRORS
    {
      if IsEmpty() then NO_ERRORS
      else
        DecimalRoundTrip(|manifestUrls| + |repoUrls|);
        Decimal(|manifestUrls| + |repoUrls|) + SOME_ERRORS
    }
  }

  const NO_ERRORS: string := "no errors occurred while loading the source configs"
  const SOME_ERRORS: string := " errors have occurred while loading the source configs"

  /** The decimal digits of `n`, without leading zeros. */
  function Decimal(n: nat): (s: string)
    decreases n
  {
    if n < 10 then [Digit(n)] else Decimal(n / 10) + [Digit(n % 10)]
  }

  function Digit(d: nat): char
    requires d < 10
  {
    "0123456789"[d]
  }

  /** Whether `s` is a non-empty string of decimal digits. */
  predicate IsDecimal(s: string)
  {
    s != [] && forall i :: 0 <= i < |s| ==> '0' <= s[i] <= '9'
  }

  /** The number a string of decimal digits denotes. */
  function DecimalValue(s: string): nat
    requires forall i :: 0 <= i < |s| ==> '0' <= s[i] <= '9'
    decreases |s|
  {
    if s == [] then 0 else 10 * DecimalValue(s[..|s| - 1]) + (s[|s| - 1] as int - '0' as int)
  }

  /** `Decimal` writes digits, with no leading zero, that read back as `n`. */
  lemma {:induction false} DecimalRoundTrip(n: nat)
    ensures IsDecimal(Decimal(n))
    ensures Decimal(n)[0] == '0' ==> n == 0
    ensures DecimalValue(Decimal(n)) == n
    decreases n
  {
    if n >= 10 {
      DecimalRoundTrip(n / 10);
      var s := Decimal(n);
      assert s[..|s| - 1] == Decimal(n / 10);
      assert s[0] == Decimal(n / 10)[0];
    }
  }

  /** The summary reports "no errors" exactly when there are none, and
      otherwise the total number of errors, in decimal, in front of the
      fixed text. */
  lemma FmtReportsCount(errors: SourcesLoadingErrors)
    ensures errors.IsEmpty() <==> errors.Fmt() == NO_ERRORS
    ensures !errors.IsEmpty() ==>
      var msg := errors.Fmt();
      && |msg| > |SOME_ERRORS|
      && var count := msg[..|msg| - |SOME_ERRORS|];
      && msg[|count|..] == SOME_ERRORS
      && IsDecimal(count) && count[0] != '0'
      && DecimalValue(count) == |errors.All()|
  {
    var n := |errors.manifestUrls| + |errors.repoUrls|;
    DecimalRoundTrip(n);
    if !errors.IsEmpty() {
      var count := Decimal(n);
      var msg := errors.Fmt();
      assert msg == count + SOME_ERRORS;
      assert msg[..|msg| - |SOME_ERRORS|] == count;
      assert |msg| > |NO_ERRORS|;
    }
  }

  /** One step of listing a directory: the next entry's path, or a failure. */
  datatype DirStep = Entry(path: string) | NextEntryFailed(detail: string)

  /** The filesystem as the loader sees it: a directory opens to the steps of
      its listing (which ends after the last one), a file reads to its bytes,
      and paths join. */
  datatype ConfigFs = ConfigFs(
    readDir: string -> Result<seq<DirStep>, string>,
    readFile: string -> Result<seq<byte>, string>,
    joinPath: (string, string) -> string)

  /** How one kind of file is read: the YAML parser for its format, and the
      extraction of its URLs. */
  datatype Reader<!T> = Reader(parse: seq<byte> -> Result<T, string>, process: T -> seq<string>)

  /** What a load yields: the URLs, and the errors met on the way. */
  datatype Loaded = Loaded(values: seq<string>, errors: seq<LoadingError>)

  /** What one directory entry yields. */
  function EntryResult<T>(fs: ConfigFs, reader: Reader<T>, path: string): (r: Loaded)
    ensures |r.errors| <= 1 && (r.errors == [] || r.values == [])
  {
    match fs.readFile(path)
    case Err(e) => Loaded([], [FileReading(e, path)])
    case Ok(data) =>
      match reader.parse(data)
      case Err(e) => Loaded([], [Parsing(e, path)])
      case Ok(parsed) => Loaded(reader.process(parsed), [])
  }

  /** What the entries listed by `steps` yield, in order; a listing failure
      is reported and ends the listing. */
  function Entries<T>(fs: ConfigFs, reader: Reader<T>, dir: string, steps: seq<DirStep>): Loaded
    decreases |steps|
  {
    if steps == [] then Loaded([], [])
    else match steps[0]
      case NextEntryFailed(e) => Loaded([], [DirNextEntry(e, dir)])
      case Entry(path) =>
        var one, rest := EntryResult(fs, reader, path), Entries(fs, reader, dir, steps[1..]);
        Loaded(one.values + rest.values, one.errors + rest.errors)
  }

  /** What loading the directory `dir` yields. */
  function LoadSpec<T>(fs: ConfigFs, reader: Reader<T>, dir: string): Loaded
  {
    match fs.readDir(dir)
    case Err(e) => Loaded([], [DirReading(e, dir)])
    case Ok(steps) => Entries(fs, reader, dir, steps)
  }

  /** Load the data from the directory `dir`, extracting the values with the
      reader's processor. */
  method Load<T>(fs: ConfigFs, reader: Reader<T>, dir: string) returns (values: seq<string>, errors: seq<LoadingError>)
    ensures Loaded(values, errors) == LoadSpec(fs, reader, dir)
  {
    var listing := fs.readDir(dir);
    if listing.Err? {
      return [], [DirReading(listing.error, dir)];
    }
    var steps := listing.value;
    values, errors := [], [];
    var i := 0;
    while i < |steps|
      invariant 0 <= i <= |steps|
      invariant var rest := Entries(fs, reader, dir, steps[i..]);
        Entries(fs, reader, dir, steps) == Loaded(values + rest.values, errors + rest.errors)
    {
      assert steps[i..][0] == steps[i] && steps[i..][1..] == steps[i + 1..];
      ghost var rest := Entries(fs, reader, dir, steps[i + 1..]);
      match steps[i] {
        case NextEntryFailed(e) =>
          errors := errors + [DirNextEntry(e, dir)];
          assert values + [] == values;
          return;
        case Entry(path) =>
          ghost var one := EntryResult(fs, reader, path);
          Associative(values, one.values, rest.values);
          Associative(errors, one.errors, rest.errors);
          i := i + 1;
          var data := fs.readFile(path);
          if data.Err? {
            errors := errors + [FileReading(data.error, path)];
            assert values + [] == values;
            continue;
          }
          var parsed := reader.parse(data.value);
          if parsed.Err? {
            errors := errors + [Parsing(parsed.error, path)];
            assert values + [] == values;
            continue;
          }
          values := values + reader.process(parsed.value);
          assert errors + [] == errors;
      }
    }
    assert steps[i..] == [];
    assert values + [] == values && errors + [] == errors;
  }

  /** Load the sources under the configuration root `root`: the repo URLs
      from its `repos.d` and the manifest URLs from its `manifestUrls.d`,
      each kind with its own errors. */
  method LoadSources(fs: ConfigFs, parseRepos: seq<byte> -> Result<ReposFile, string>,
                     parseManifests: seq<byte> -> Result<ManifestUrlsFile, string>, root: string)
    returns (sources: Config.Sources, errors: SourcesLoadingErrors)
    ensures fresh(sources)
    ensures var r := LoadSpec(fs, ReposReader(parseRepos), fs.joinPath(root, Config.REPOS));
      sources.repoUrls == r.values && errors.repoUrls == r.errors
    ensures var m := LoadSpec(fs, ManifestUrlsReader(parseManifests), fs.joinPath(root, Config.MANIFEST_URLS));
      sources.manifestUrls == m.values && errors.manifestUrls == m.errors
  {
    var repoUrls, repoErrors := Load(fs, ReposReader(parseRepos), fs.joinPath(root, Config.REPOS));
    var manifestUrls, manifestErrors := Load(fs, ManifestUrlsReader(parseManifests), fs.joinPath(root, Config.MANIFEST_URLS));
    sources := new Config.Sources(manifestUrls, repoUrls);
    errors := SourcesLoadingErrors(manifestErrors, repoErrors);
  }

  /** A file of `repos.d`. */
  datatype ReposFile = ReposFile(repoUrls: seq<RepoUrl>)
  datatype RepoUrl = RepoUrl(url: string)

  /** A file of `manifestUrls.d`. */
  datatype ManifestUrlsFile = ManifestUrlsFile(manifestUrls: seq<ManifestUrl>)
  datatype ManifestUrl = ManifestUrl(url: string)

  /** The reader of `repos.d` files, over the YAML parser for their format. */
  function ReposReader(parse: seq<byte> -> Result<ReposFile, string>): (r: Reader<ReposFile>)
    ensures r.parse == parse
    ensures forall file: ReposFile ::
      && |r.process(file)| == |file.repoUrls|
      && (forall i :: 0 <= i < |file.repoUrls| ==> r.process(file)[i] == file.repoUrls[i].url)
  {
    Reader(parse, (file: ReposFile) => seq(|file.repoUrls|, i requires 0 <= i < |file.repoUrls| => file.repoUrls[i].url))
  }

  /** The reader of `manifestUrls.d` files, over the YAML parser for their format. */
  function ManifestUrlsReader(parse: seq<byte> -> Result<ManifestUrlsFile, string>): (r: Reader<ManifestUrlsFile>)
    ensures r.parse == parse
    ensures forall file: ManifestUrlsFile ::
      && |r.process(file)| == |file.manifestUrls|
      && (forall i :: 0 <= i < |file.manifestUrls| ==> r.process(file)[i] == file.manifestUrls[i].url)
  {
    Reader(parse, (file: ManifestUrlsFile) => seq(|file.manifestUrls|, i requires 0 <= i < |file.manifestUrls| => file.manifestUrls[i].url))
  }

  // Properties of the listing loop.

  /** The paths of the entries visited: those listed before the first
      listing failure. */
  function Visited(steps: seq<DirStep>): seq<string>
    decreases |steps|
  {
    if steps == [] || steps[0].NextEntryFailed? then [] else [steps[0].path] + Visited(steps[1..])
  }

  /** Whether the listing failed. */
  predicate Interrupted(steps: seq<DirStep>)
  {
    exists k :: 0 <= k < |steps| && steps[k].NextEntryFailed?
  }

  /** Whether the file at `path` reads and parses. */
  predicate Good<T>(fs: ConfigFs, reader: Reader<T>, path: string)
  {
    fs.readFile(path).Ok? && reader.parse(fs.readFile(path).value).Ok?
  }

  /** The URLs of the good files among `paths`, file after file. */
  function ValuesOf<T>(fs: ConfigFs, reader: Reader<T>, paths: seq<string>): seq<string>
    requires forall p :: p in paths ==> Good(fs, reader, p)
    decreases |paths|
  {
    if paths == [] then []
    else
      var p := paths[0];
      assert p in paths && Good(fs, reader, p);
      assert fs.readFile(p).Ok?;
      reader.process(reader.parse(fs.readFile(p).value).value) + ValuesOf(fs, reader, paths[1..])
  }

  /** The error a file that does not read or parse yields: the read
      failure, or else the parse failure, naming the file. */
  function ErrorOf<T>(fs: ConfigFs, reader: Reader<T>, path: string): (e: LoadingError)
    requires !Good(fs, reader, path)
    ensures e.path == path && (e.FileReading? <==> fs.readFile(path).Err?) && (e.FileReading? || e.Parsing?)
  {
    match fs.readFile(path)
    case Err(d) => FileReading(d, path)
    case Ok(data) => Parsing(reader.parse(data).error, path)
  }

  /** The errors of the bad files among `paths`, file after file. */
  function ErrorsOf<T>(fs: ConfigFs, reader: Reader<T>, paths: seq<string>): seq<LoadingError>
    requires forall p :: p in paths ==> !Good(fs, reader, p)
    decreases |paths|
  {
    if paths == [] then []
    else [ErrorOf(fs, reader, paths[0])] + ErrorsOf(fs, reader, paths[1..])
  }

  /** The error that ends a failed listing, with the first failure's detail;
      nothing when the listing completed. */
  function ListingError(dir: string, steps: seq<DirStep>): seq<LoadingError>
    decreases |steps|
  {
    if steps == [] then []
    else match steps[0]
      case NextEntryFailed(d) => [DirNextEntry(d, dir)]
      case Entry(_) => ListingError(dir, steps[1..])
  }

  /** The `k`-th error of `ErrorsOf(paths)` is the `k`-th path's. */
  lemma {:induction false} ErrorsOfNames<T>(fs: ConfigFs, reader: Reader<T>, paths: seq<string>)
    requires forall p :: p in paths ==> !Good(fs, reader, p)
    ensures |ErrorsOf(fs, reader, paths)| == |paths|
    ensures forall k :: 0 <= k < |paths| ==> ErrorsOf(fs, reader, paths)[k] == ErrorOf(fs, reader, paths[k])
    decreases |paths|
  {
    if paths != [] {
      ErrorsOfNames(fs, reader, paths[1..]);
      forall k | 1 <= k < |paths|
        ensures ErrorsOf(fs, reader, paths)[k] == ErrorOf(fs, reader, paths[k])
      {
        assert paths[k] == paths[1..][k - 1];
      }
    }
  }

  /** Past a first entry that is not a failure, the listing fails exactly
      when the rest of it does. */
  lemma InterruptedTail(steps: seq<DirStep>)
    requires steps != [] && steps[0].Entry?
    ensures Interrupted(steps) <==> Interrupted(steps[1..])
  {
    if Interrupted(steps[1..]) {
      var k :| 0 <= k < |steps[1..]| && steps[1..][k].NextEntryFailed?;
      assert steps[k + 1] == steps[1..][k];
    }
    if Interrupted(steps) {
      var k :| 0 <= k < |steps| && steps[k].NextEntryFailed?;
      assert steps[1..][k - 1] == steps[k];
    }
  }

  /** The URLs loaded are those of exactly the visited entries that read and
      parse, in listing order. */
  lemma {:induction false} EntriesValues<T>(fs: ConfigFs, reader: Reader<T>, dir: string, steps: seq<DirStep>)
    ensures Entries(fs, reader, dir, steps).values
         == ValuesOf(fs, reader, Retain((p: string) => Good(fs, reader, p), Visited(steps)))
    decreases |steps|
  {
    if steps != [] && steps[0].Entry? {
      var good := (p: string) => Good(fs, reader, p);
      var path, rest := steps[0].path, steps[1..];
      EntriesValues(fs, reader, dir, rest);
      assert Visited(steps) == [path] + Visited(rest);
      RetainAppend(good, [path], Visited(rest));
      var tail := Retain(good, Visited(rest));
      var one, later := EntryResult(fs, reader, path), Entries(fs, reader, dir, rest);
      assert Entries(fs, reader, dir, steps).values == one.values + later.values;
      if Good(fs, reader, path) {
        assert Retain(good, [path]) == [path];
        assert ([path] + tail)[0] == path && ([path] + tail)[1..] == tail;
        assert ValuesOf(fs, reader, [path] + tail) == one.values + ValuesOf(fs, reader, tail);
      } else {
        assert Retain(good, [path]) == [];
        assert [] + tail == tail;
        assert one.values == [] && [] + later.values == later.values;
      }
    }
  }

  /** The errors are those of the visited entries that do not read or
      parse, each naming its entry, in listing order; then, when the listing
      failed, one `DirNextEntry` with the first failure's detail. */
  lemma {:induction false} EntriesErrors<T>(fs: ConfigFs, reader: Reader<T>, dir: string, steps: seq<DirStep>)
    ensures Entries(fs, reader, dir, steps).errors
         == ErrorsOf(fs, reader, Retain((p: string) => !Good(fs, reader, p), Visited(steps))) + ListingError(dir, steps)
    ensures |ListingError(dir, steps)| == if Interrupted(steps) then 1 else 0
    decreases |steps|
  {
    if steps == [] {
    } else if steps[0].NextEntryFailed? {
      assert Interrupted(steps);
      assert Retain((p: string) => !Good(fs, reader, p), Visited(steps)) == [];
    } else {
      var bad := (p: string) => !Good(fs, reader, p);
      var path, rest := steps[0].path, steps[1..];
      EntriesErrors(fs, reader, dir, rest);
      InterruptedTail(steps);
      assert Visited(steps) == [path] + Visited(rest);
      RetainAppend(bad, [path], Visited(rest));
      var tail := Retain(bad, Visited(rest));
      var one := EntryResult(fs, reader, path);
      if Good(fs, reader, path) {
        assert Retain(bad, [path]) == [];
        assert [] + tail == tail;
        assert one.errors == [];
      } else {
        assert Retain(bad, [path]) == [path];
        assert ([path] + tail)[0] == path && ([path] + tail)[1..] == tail;
        assert one.errors == [ErrorOf(fs, reader, path)];
        Associative(one.errors, ErrorsOf(fs, reader, tail), ListingError(dir, rest));
      }
    }
  }

  /** Loading a directory yields the URLs of exactly the visited entries that
      read and parse, in listing order; the errors of exactly the visited
      entries that do not, each naming its entry, in listing order; and one
      more error, last, when the listing failed. */
  lemma EntriesReference<T>(fs: ConfigFs, reader: Reader<T>, dir: string, steps: seq<DirStep>)
    ensures var good := Retain((p: string) => Good(fs, reader, p), Visited(steps));
      var bad := Retain((p: string) => !Good(fs, reader, p), Visited(steps));
      var r := Entries(fs, reader, dir, steps);
      && r.values == ValuesOf(fs, reader, good)
      && r.errors == ErrorsOf(fs, reader, bad) + ListingError(dir, steps)
      && |r.errors| == |bad| + (if Interrupted(steps) then 1 else 0)
      && (!Interrupted(steps) ==> r.errors == ErrorsOf(fs, reader, bad))
  {
    EntriesValues(fs, reader, dir, steps);
    EntriesErrors(fs, reader, dir, steps);
    ErrorsOfNames(fs, reader, Retain((p: string) => !Good(fs, reader, p), Visited(steps)));
  }


  /** Nothing listed after a listing failure is visited. */
  lemma {:induction false} StopsAtListingFailure<T>(fs: ConfigFs, reader: Reader<T>, dir: string, before: seq<DirStep>, detail: string, after: seq<DirStep>)
    ensures Entries(fs, reader, dir, before + [NextEntryFailed(detail)] + after)
         == Entries(fs, reader, dir, before + [NextEntryFailed(detail)])
    decreases |before|
  {
    if before == [] {
      assert ([] + [NextEntryFailed(detail)] + after)[0] == NextEntryFailed(detail);
    } else {
      assert (before + [NextEntryFailed(detail)] + after)[1..] == before[1..] + [NextEntryFailed(detail)] + after;
      assert (before + [NextEntryFailed(detail)])[1..] == before[1..] + [NextEntryFailed(detail)];
      StopsAtListingFailure(fs, reader, dir, before[1..], detail, after);
    }
  }

  /** Until the listing fails, entries are processed one after the other:
      loading `a + b` yields what `a` yields followed by what `b` yields. */
  lemma {:induction false} EntriesAppend<T>(fs: ConfigFs, reader: Reader<T>, dir: string, a: seq<DirStep>, b: seq<DirStep>)
    requires !Interrupted(a)
    ensures var r, x, y := Entries(fs, reader, dir, a + b), Entries(fs, reader, dir, a), Entries(fs, reader, dir, b);
      r == Loaded(x.values + y.values, x.errors + y.errors)
    decreases |a|
  {
    if a == [] {
      assert [] + b == b;
      var y := Entries(fs, reader, dir, b);
      assert [] + y.values == y.values && [] + y.errors == y.errors;
    } else {
      assert !a[0].NextEntryFailed?;
      assert (a + b)[0] == a[0] && (a + b)[1..] == a[1..] + b;
      EntriesAppend(fs, reader, dir, a[1..], b);
      var one := EntryResult(fs, reader, a[0].path);
      var x, y := Entries(fs, reader, dir, a[1..]), Entries(fs, reader, dir, b);
      Associative(one.values, x.values, y.values);
      Associative(one.errors, x.errors, y.errors);
    }
  }

  /** Helper: sequence concatenation is associative, stated once so that
      the proofs above stay cheap. */
  lemma Associative<E>(a: seq<E>, b: seq<E>, c: seq<E>)
    ensures a + (b + c) == a + b + c
  {
  }

  /** A bad entry costs one error, in its place, and nothing else: the
      entries after it are loaded as if it were not there. */
  lemma SkipsBadEntry<T>(fs: ConfigFs, reader: Reader<T>, dir: string, before: seq<DirStep>, path: string, after: seq<DirStep>)
    requires !Interrupted(before) && !Good(fs, reader, path)
    ensures var r, s := Entries(fs, reader, dir, before + [Entry(path)] + after), Entries(fs, reader, dir, before + after);
      && r.values == s.values
      && |r.errors| == |s.errors| + 1
      && r.errors == Entries(fs, reader, dir, before).errors + EntryResult(fs, reader, path).errors
                     + Entries(fs, reader, dir, after).errors
  {
    var x, y := Entries(fs, reader, dir, before), Entries(fs, reader, dir, after);
    var one := EntryResult(fs, reader, path);
    assert before + [Entry(path)] + after == before + ([Entry(path)] + after);
    EntriesAppend(fs, reader, dir, before, [Entry(path)] + after);
    EntriesAppend(fs, reader, dir, before, after);
    assert ([Entry(path)] + after)[0] == Entry(path) && ([Entry(path)] + after)[1..] == after;
    assert Entries(fs, reader, dir, [Entry(path)] + after) == Loaded(one.values + y.values, one.errors + y.errors);
    assert one.values == [];
    assert [] + y.values == y.values;
    assert x.errors + (one.errors + y.errors) == x.errors + one.errors + y.errors;
  }

}
