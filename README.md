# Humanode distribution: resolver, selector, installer and config loading in Dafny

This project models the core of the Humanode distribution tool and proves
properties of the model. The tool discovers installable packages, picks one
and installs it:

- **Resolver.** It expands repo documents into manifest URLs and fetches every
  distinct manifest once. It tags each package with the manifest it came from
  and keeps the ones the caller's filter accepts. Every fetch failure goes to
  an issue sink and never stops the run.
- **Target filter.** It keeps the packages built for one platform and
  architecture, in their order.
- **Selector.** It reduces the resolved list to one package, or to one of three
  errors.
- **Installer.** It goes through a package's files in order. For each file it
  decodes the expected SHA-256, resolves the file's URL against the base URL,
  creates the parent directory, creates or truncates the file, streams the
  download into it while hashing, and compares the hashes. Then it makes the
  three designated binaries executable (mode 0o755). The first failure aborts
  the run.
- **Streaming loader.** It writes each received buffer to the file and only
  then feeds it to the running digest. In the model, where every write
  reports its own failure at once, the bytes hashed are therefore always the
  bytes written (see `Host.FileSystem.WriteAll` under "## Left out" for where
  the program differs).
- **Configuration.**
  - The two source lists (manifest URLs and repo URLs) are extended by plain
    concatenation.
  - Each list is loaded from a directory of YAML files with a fixed error
    policy: an unreadable directory is fatal, a bad file is skipped, and a
    listing failure stops the listing.

Every effect is a parameter of the model:

- the document fetcher (`Resolve.Remote`);
- the HTTP client (`Http.Client`);
- filesystem failures (`Host.Faults`);
- URL parsing and joining, hex decoding, SHA-256 and path operations (`Install.Env`);
- the configuration filesystem and the YAML parsers (`Load.ConfigFs`, `Load.Reader`).

The code that changes state in the source is imperative here, and each such
method is proved equal to a specification function, except `Sources::extend`,
whose two new lists are stated directly:

- the resolver's two loops (`Resolve.ExpandRepos`, `Resolve.VisitManifests`, joined by `Resolve.Resolve`);
- the chunk loop (`Http.StreamBody`, `Http.WriteBuffer`);
- the installer's loops (`Install.DownloadFiles`, `Install.MarkExecutable`);
- `Sources::extend`;
- the directory-loading loop (`Load.Load`).

The filesystem is a class with `files`, `dirs` and `modes` fields that its
methods update in place (`Host.FileSystem`). The digest is a class whose state
is the bytes fed so far (`Host.Digest`).

Files:

- `common.dfy`: `Option`, `Result`, `byte`, and the order-preserving `Retain`
  filter with its lemmas.
- `schema.dfy`: the repo and manifest document types.
- One file per source module: `resolve.dfy`, `filter.dfy`, `selector.dfy`,
  `http.dfy`, `install.dfy`, `config.dfy`, `load.dfy`.
- `host.dfy`: the filesystem and digest that the installer runs against.

Two details of the data model:

- `Schema.Package` mirrors `Binary` (crates/schema/src/manifest.rs:15-41),
  which has no platform-specialisation field.
- `Install.InstallationError.ParseHash` carries the raw
  `destination_sub_path` and `sub_url`
  (crates/installer/src/install.rs:130-134), not the joined path.

## Model

| member | source | states |
|---|---|---|
| Resolve.Resolve | crates/resolver/src/resolve.rs:52-112 | Every repo URL is fetched once, in input order, before any manifest. Every distinct manifest URL (the caller's set plus those of every repo that loads) is then fetched exactly once, in an unspecified order. The result is, manifest after manifest, the filter-accepted packages tagged with their manifest URL. The issues are one per failed repo, in order, then one per failed manifest. |
| Resolve.ExpandRepos | crates/resolver/src/resolve.rs:65-81 | The repo loop fetches every repo URL once, in input order. It reports one issue per failed repo, in order, and ends with the caller's manifest URLs plus those of every repo that loads, as a set. |
| Resolve.VisitManifests | crates/resolver/src/resolve.rs:83-109 | The manifest loop visits each URL of the set exactly once, in some order. It gathers the accepted, tagged packages in that order and reports one issue per failed manifest. |
| Resolve.GatherCovers | crates/resolver/src/resolve.rs:85-109 | Whatever the visiting order of the set, the result holds exactly the surviving packages of its manifests. |
| Resolve.TagMembership | crates/resolver/src/resolve.rs:99-106 | A tagged item comes from the manifest's list and carries exactly that manifest's URL. |
| Resolve.GatherMembership | crates/resolver/src/resolve.rs:99-108 | An item is in the result if and only if some visited manifest loads, lists the item's package, the item is tagged with that manifest's URL, and the filter accepts it. |
| Resolve.GatherTags | crates/resolver/src/resolve.rs:103-104 | Every returned item is tagged with a manifest URL that was visited. |
| Resolve.GatherKeepsManifestOrder | crates/resolver/src/resolve.rs:99-107 | The items of one manifest appear in the result exactly as the filter leaves that manifest's list, in manifest order. |
| Resolve.RepoIssuesAccount | crates/resolver/src/resolve.rs:67-81 | There is one issue per repo URL that fails to load, in input order. Each issue names its URL and carries the loader's error. |
| Resolve.ManifestIssuesAccount | crates/resolver/src/resolve.rs:85-97 | The issue count is the number of distinct visited manifest URLs that fail to load. Each issue names a visited URL and carries the loader's error, and every failed visited URL has its issue, so each failed URL is named exactly once. |
| Resolve.ResolveIssueCount | crates/resolver/src/resolve.rs:65-97 | The number of issues is the number of failed repo URLs plus the number of failed distinct manifest URLs. |
| Resolve.VisitedOnce | crates/resolver/src/resolve.rs:65-85 | A manifest URL listed twice, by the caller or by several repos, is fetched exactly once. |
| Filter.Params.Matches | crates/resolver/src/filter.rs:17-19 | An item matches exactly when its package's platform is the target platform and its architecture is the target architecture. |
| Filter.Params.Filter | crates/resolver/src/filter.rs:22-29 | It keeps exactly the items that match the target. It keeps their relative order (a subsequence) and never lengthens the list. |
| Filter.MatchesOnlyTarget | crates/resolver/src/filter.rs:17-19 | Matching depends only on platform and architecture, not on the manifest URL or any other package field. |
| Filter.FilterIdempotent | crates/resolver/src/filter.rs:22-29 | Filtering twice is the same as filtering once. |
| Filter.FilterAppend | crates/resolver/src/filter.rs:26-28 | Filtering a concatenation is the same as filtering each part and concatenating. |
| Selector.Find | crates/cli/src/selector.rs:40-44 | It returns the element at the first position whose display name matches, or nothing if no element matches. |
| Selector.Selector.Select | crates/cli/src/selector.rs:28-47 | An empty list gives exactly `NoPackages`. Without a name, one package is returned and two or more give `NotSpecificEnough`. With a name, `NotFound` comes back exactly when nothing matches, even for a one-element list. Any `Ok` is a list element carrying the name. |
| Selector.SelectFirstByName | crates/cli/src/selector.rs:40-44 | With a name, the first package in list order that carries it is selected, wherever it stands. Searching the remainder and then the last element is the same as searching in list order. |
| Host.FileSystem.CreateDirAll | crates/installer/src/install.rs:146-153 | On success the directory exists. On failure nothing changes. |
| Host.FileSystem.CreateTruncate | crates/installer/src/install.rs:155-164 | On success the file exists and is empty. On failure nothing changes. |
| Host.FileSystem.WriteAll | crates/installer/src/http.rs:50 | On success the data is appended to the file. On failure nothing is. |
| Host.FileSystem.SetPermissions | crates/installer/src/install.rs:195-197 | A missing path fails with not-found. On success only that path's mode changes. |
| Host.Digest.constructor | crates/installer/src/install.rs:165 | A new digest has been fed nothing. |
| Host.Digest.Update | crates/installer/src/http.rs:51-53 | Feeding appends the bytes to what the digest has been fed. |
| Host.Digest.Finalize | crates/installer/src/http.rs:59 | The result is the SHA-256 of everything fed. |
| Http.PumpOutcome | crates/installer/src/http.rs:42-57 | Streaming only appends to the destination, and appends a prefix of the body. It ends without error only if every read succeeded and the whole body was written. It fails only with `Read` or `Write`, and `Read` only when a read failed. |
| Http.PumpReadFailure | crates/installer/src/http.rs:42 | A failed read ends the stream with that read's `Read` error, unless a write failed before it. A `Read` error always carries the first failed read's detail. When no write fails, the stream stops with exactly the first failed read's `Read`, and ends without error when no read fails. |
| Http.PumpSkipsEmpty | crates/installer/src/http.rs:44-48 | An empty buffer writes nothing and changes nothing. |
| Http.EmptyStep | crates/installer/src/http.rs:44-48 | The loop invariant survives an empty buffer. |
| Http.FailedWriteStep | crates/installer/src/http.rs:50 | A failed write ends the stream with `Write`, without hashing the slice. |
| Http.WrittenStep | crates/installer/src/http.rs:50-55 | After a successful write and feed, what was written and what was hashed both grow by the same slice. |
| Http.WriteBuffer | crates/installer/src/http.rs:44-56 | The inner loop ends because each step shrinks the remaining buffer. It writes the buffer and feeds it to the digest only after the write succeeds; a failed write feeds nothing. |
| Http.StreamBody | crates/installer/src/http.rs:42-57 | The chunk loop produces the outcome of the function `Http.Pump`, and the bytes fed to the digest are exactly the bytes written. |
| Http.LoadFile | crates/installer/src/http.rs:25-61 | `load_file` produces the result and filesystem given by the function `Http.LoadFileSpec`. The destination grows by exactly the bytes hashed. |
| Http.LoadFileOutcome | crates/installer/src/http.rs:31-60 | A build or send failure gives `Reqwest` and a non-2xx status gives `Server`, both before anything is written. Success holds exactly when the status is 2xx and streaming succeeds. The hash is then the SHA-256 of the whole body, which is what was appended. |
| Install.PlaceOne | crates/installer/src/install.rs:146-180 | It creates the parent directory and the file, downloads, and compares hashes, matching the function `Install.PlaceFile`. |
| Install.DownloadFiles | crates/installer/src/install.rs:126-181 | The file loop matches the function `Install.InstallFiles`: files in declared order, stopping at the first failure. |
| Install.MarkExecutable | crates/installer/src/install.rs:186-198 | The permission loop matches the function `Install.SetExecutable`: the designated paths in order, stopping at the first failure. |
| Install.Install | crates/installer/src/install.rs:111-202 | `install` produces the result and filesystem given by the function `Install.InstallSpec`. |
| Install.PlaceFileOutcome | crates/installer/src/install.rs:146-180 | Placing a file never changes modes. On success the file holds exactly the body, whatever it held before, and the body hashes to the expected value. On `FileHashMismatch{path, expected, actual}`, `actual` differs from `expected`, is the hash of the file's contents, and the file is left in place. Conversely, once the directory and file are created and the download completes with a hash other than `expected`, the result is exactly that `FileHashMismatch`. |
| Install.InstallFileOutcome | crates/installer/src/install.rs:127-180 | A hash that does not decode gives `ParseHash` with the raw sub-path and sub-URL. A URL that does not resolve gives `ParseFileUrl`. Both happen before anything is created. On success the file is verified and `dir` joined with its sub-path holds the body. |
| Install.InstallFilesAppend | crates/installer/src/install.rs:126-181 | Files are installed in order. The first failure aborts, and no later file is touched. |
| Install.InstallFilesOutcome | crates/installer/src/install.rs:126-181 | The files phase never changes a mode. It succeeds only if every file's hash matched its download. |
| Install.SetExecutableOutcome | crates/installer/src/install.rs:184-199 | Files and directories are unchanged. Only the designated joined paths' modes change, and no mode entry disappears. The only error is `SetFilePermissions`. On success each of them has mode 0o755. |
| Install.InstallOutcome | crates/installer/src/install.rs:111-202 | A bad base URL fails with `ParseBaseUrl` and leaves the filesystem unchanged. `Ok` means every file verified and, with POSIX modes, that the executable, ngrok and tunnel-client paths are 0o755. Without POSIX modes no mode changes. Modes are set only after every file succeeded: any failure other than `SetFilePermissions` leaves every mode as it was. No mode entry disappears, and any path other than those three joined paths, such as the chainspec path, keeps its mode. |
| Config.Sources.Default | crates/config/src/lib.rs:27-33 | The default sources are both empty. |
| Config.Sources.constructor | crates/config/src/load.rs:83-86 | The sources hold the given manifest and repo URL lists. |
| Config.Sources.Extend | crates/config/src/lib.rs:37-44 | Each list becomes the old list followed by the other's list of the same kind. There is no deduplication, so the lengths add up, and extending with empty sources changes nothing. |
| Load.SourcesLoadingErrors.IsEmpty | crates/config/src/load.rs:29-31 | No error occurred exactly when the two lists hold no error between them. |
| Load.SourcesLoadingErrors.Fmt | crates/config/src/load.rs:39-50 | The message is the "no errors" text exactly when there are no errors; otherwise it ends with the fixed "errors have occurred" text, after a non-empty prefix. |
| Load.SourcesLoadingErrors.All | crates/config/src/load.rs:34-36 | The result is the manifest URL errors, then the repo URL errors; its length is the sum. It is empty exactly when `is_empty` holds. |
| Load.DecimalRoundTrip | crates/config/src/load.rs:44-48 | The number is printed as decimal digits, with no leading zero, that read back as the number. |
| Load.FmtReportsCount | crates/config/src/load.rs:39-50 | The message is the "no errors" text exactly when there are no errors. Otherwise it is the total error count in decimal followed by the fixed text. |
| Load.EntryResult | crates/config/src/load.rs:147-165 | One entry yields at most one error, and no values when it yields one. |
| Load.Load | crates/config/src/load.rs:114-169 | The loop matches the function `Load.LoadSpec`: an unreadable directory gives no values and one `DirReading`; otherwise the entries are processed in listing order. |
| Load.EntriesValues | crates/config/src/load.rs:136-166 | The values are the URLs of exactly those entries before the first listing failure that read and parse, in listing order. |
| Load.ErrorOf | crates/config/src/load.rs:147-161 | A file that does not read or parse yields one error naming it: `FileReading` exactly when reading failed, otherwise `Parsing`. |
| Load.ErrorsOfNames | crates/config/src/load.rs:147-161 | For a list of bad files, the k-th error is the k-th file's, so there is one error per file, in order. |
| Load.EntriesErrors | crates/config/src/load.rs:136-166 | The errors are those of the visited entries that do not read or parse, in listing order, then the `DirNextEntry` carrying the first listing failure's detail, present exactly when the listing failed. Without a listing failure no `DirNextEntry` occurs. |
| Load.EntriesAppend | crates/config/src/load.rs:136-166 | Until the listing fails, loading a concatenation of listings is loading each part and concatenating both the values and the errors. |
| Load.EntriesReference | crates/config/src/load.rs:136-166 | The values are the URLs of exactly those entries before the first listing failure that read and parse, in order. The errors are those of the visited entries that do not read or parse, each naming its entry, in order, followed by one `DirNextEntry` exactly when the listing failed. |
| Load.StopsAtListingFailure | crates/config/src/load.rs:137-144 | Nothing listed after a listing failure is visited. |
| Load.SkipsBadEntry | crates/config/src/load.rs:147-161 | An unreadable or unparsable file adds one error, in place, and nothing else; the following entries load as if it were absent. |
| Load.ReposReader | crates/config/src/load.rs:97-102 | A `repos.d` file yields its repo URLs, in order. |
| Load.ManifestUrlsReader | crates/config/src/load.rs:105-110 | A `manifestUrls.d` file yields its manifest URLs, in order. |
| Load.LoadSources | crates/config/src/load.rs:73-110 | The repo URLs and their errors are what loading `repos.d` with the repos reader yields. That reader's values are the `url` fields of each file's entries. The manifest URLs and their errors come the same way from `manifestUrls.d`. Each kind goes to its own field. Only the YAML parsers are parameters. |

## Left out

- The meta loader (crates/resolver/src/http.rs) is not part of this model. Fetching and parsing a document is the `Resolve.Remote` oracle.
- `ResolutionError.error` is the display text of the load error in the source; the model keeps the typed error. `ResolutionError::from_display` is unused by the core and not modelled.
- The issue sink is the ghost `issues` sequence that `Resolve.Resolve` returns. The result of each send is ignored in the source and is not observed here.
- Visiting the manifest URL set: a `HashSet`'s iteration order is unspecified. The model picks each next URL arbitrarily and exposes the choice as the ghost `order`.
- HTTP transport, `reqwest` errors and status codes: errors are text and a status is a number. Building the request and executing it are one call that can fail with `Reqwest`.
- `tokio::fs` is the `Host.FileSystem` class with injected failures. Host.FileSystem.WriteAll does not model a `write_all` that writes part of the data before failing: a failed write appends nothing. `create_dir_all` records only the directory itself, not its ancestors.
- Host.FileSystem.WriteAll: write errors are taken as reported by the write that caused them. `tokio::fs::File` (opened at crates/installer/src/install.rs:155-164) queues a write and reports its failure only at a later write or flush, and `load_file` (crates/installer/src/http.rs:42-60) never flushes `dest`. In the program, a buffer whose write failed can already have been fed to the digest, and the last buffer's failure can go unreported, leaving a short file after an `Ok`. `Http.PumpOutcome`, `Http.LoadFileOutcome` and `Install.PlaceFileOutcome` ("on success the file holds exactly the body") hold under the model's immediate reporting, not under that deferred reporting.
- `Bytes::chunk` returns the whole remaining slice, so the inner loop writes each non-empty buffer in one step. `block_in_place` is a scheduling concern and is not modelled.
- SHA-256 (FIPS 180-4), `hex::decode`, URL parsing and base resolution (the WHATWG URL Standard's basic URL parser), path joining and `Path::parent` are uninterpreted functions in `Install.Env`. Only their success or failure and their results are used.
- The `#[cfg(unix)]` gate is the boolean parameter `unix` of `Install.Install`.
- The display messages of `InstallationError`, `FileLoadError`, `LoadingError` and `SelectionError` are not modelled. The `SourcesLoadingErrors` summary is.
- `tokio::join!` in `sources`: the two loads are independent and run one after the other here.
- YAML parsing (`serde_yaml_bw`) is the `parse` oracle of each `Load.Reader`.
- The serde round-trip test of the manifest schema cannot be modelled.
- Not part of this model:
  - the CLI entry point and argument parsing (crates/cli/src/main.rs);
  - package rendering (crates/cli/src/package_render.rs);
  - the issue printer (crates/cli/src/issue_printer.rs);
  - platform detection (crates/detection);
  - the configuration path lookup (crates/config/src/paths.rs).
- The loops of `resolve` and `install` are written as separate methods (`Resolve.ExpandRepos`, `Resolve.VisitManifests`, `Install.DownloadFiles`, `Install.MarkExecutable`, `Install.PlaceOne`). The top-level methods call them in the source's order; in the source each operation is a single function.
