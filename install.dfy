/** Installing a package: for each file, in order, decode its hash, resolve
    its URL, create its directory and the file, download it while hashing and
    compare the hashes; then mark the designated binaries executable. The
    first failure aborts; nothing already written is removed. */
module Install {
  import opened Common
  import opened Schema
  import opened Host
  import Http

  /** Why installing failed. Error details of the parsing libraries are kept as text. */
  datatype InstallationError =
    | ParseHash(hash: string, path: string, url: string, detail: string)
    | ParseBaseUrl(url: string, detail: string)
    | ParseFileUrl(url: string, baseUrl: string, detail: string)
    | CreateDir(path: string, ioError: IoError)
    | CreateFile(path: string, ioError: IoError)
    | LoadFile(path: string, url: string, loadError: Http.FileLoadError)
    | FileHashMismatch(path: string, expected: seq<byte>, actual: seq<byte>)
    | SetFilePermissions(path: string, ioError: IoError)

  /** The libraries the installer calls, as functions: URL parsing (the WHATWG
      URL Standard's basic URL parser, giving the serialized URL), parsing a
      reference against a base URL, hex decoding, SHA-256, and path joining
      and parent-taking. */
  datatype Env = Env(
    parseUrl: string -> Result<string, string>,
    joinUrl: (string, string) -> Result<string, string>,
    hexDecode: string -> Result<seq<byte>, string>,
    sha256: seq<byte> -> seq<byte>,
    joinPath: (string, string) -> string,
    parent: string -> Option<string>)

  /** The installation parameters. */
  datatype Params = Params(client: Http.Client, dir: string, baseUrl: string, package: Package)

  /** rwxr-xr-x, 0o755. */
  const EXECUTABLE_MODE: int := 0x1ED

  /** The paths made executable, in the order they are processed. */
  function Executables(package: Package): seq<LocalPath>
  {
    [package.executablePath, package.ngrokPath, package.humanodeWebsocketTunnelClientPath]
  }

  /** The result of an installation step and the filesystem after it. */
  datatype Outcome = Outcome(result: Result<(), InstallationError>, view: FsView)

  /** Everything one file installation depends on besides the filesystem. */
  datatype Context = Context(env: Env, client: Http.Client, faults: Faults, dir: string, baseUrl: string)

  /** Putting one downloaded file at `path`: create its parent directory,
      create or truncate the file, download `url` into it and compare the
      hash of what was written with `expected`. */
  function PlaceFile(env: Env, client: Http.Client, faults: Faults, v: FsView, path: string, url: string, expected: seq<byte>): Outcome
  {
    var mk := match env.parent(path)
      case None => Step(None, v)
      case Some(parent) => CreateDirStep(faults, v, parent);
    if mk.error.Some? then Outcome(Err(CreateDir(env.parent(path).value, mk.error.value)), mk.view)
    else
      var cr := CreateFileStep(faults, mk.view, path);
      if cr.error.Some? then Outcome(Err(CreateFile(path, cr.error.value)), cr.view)
      else
        var ld := Http.LoadFileSpec(client, env.sha256, faults, cr.view, url, path);
        match ld.result
        case Err(e) => Outcome(Err(LoadFile(path, url, e)), ld.view)
        case Ok(hash) =>
          if hash != expected then Outcome(Err(FileHashMismatch(path, expected, hash)), ld.view)
          else Outcome(Ok(()), ld.view)
  }

  /** Installing one file: decode its hash and resolve its URL, then place it. */
  function InstallFile(c: Context, v: FsView, file: File): Outcome
  {
    var path := c.env.joinPath(c.dir, file.destinationSubPath.path);
    match c.env.hexDecode(file.sha256.hex)
    case Err(e) =>
      Outcome(Err(ParseHash(file.sha256.hex, file.destinationSubPath.path, file.subUrl.text, e)), v)
    case Ok(expected) =>
      match c.env.joinUrl(c.baseUrl, file.subUrl.text)
      case Err(e) => Outcome(Err(ParseFileUrl(file.subUrl.text, c.baseUrl, e)), v)
      case Ok(url) => PlaceFile(c.env, c.client, c.faults, v, path, url, expected)
  }

  /** Installing the files in order, stopping at the first failure. */
  function InstallFiles(c: Context, v: FsView, files: seq<File>): Outcome
    decreases |files|
  {
    if files == [] then Outcome(Ok(()), v)
    else
      var first := InstallFile(c, v, files[0]);
      if first.result.Err? then first
      else InstallFiles(c, first.view, files[1..])
  }

  /** Setting the executable mode on each of `paths`, stopping at the first failure. */
  function SetExecutable(env: Env, faults: Faults, dir: string, v: FsView, paths: seq<LocalPath>): Outcome
    decreases |paths|
  {
    if paths == [] then Outcome(Ok(()), v)
    else
      var path := env.joinPath(dir, paths[0].path);
      var st := SetPermissionsStep(faults, v, path, EXECUTABLE_MODE);
      if st.error.Some? then Outcome(Err(SetFilePermissions(path, st.error.value)), st.view)
      else SetExecutable(env, faults, dir, st.view, paths[1..])
  }

  /** The whole installation; `unix` says whether the host has POSIX file modes. */
  function InstallSpec(env: Env, unix: bool, faults: Faults, params: Params, v: FsView): Outcome
  {
    match env.parseUrl(params.baseUrl)
    case Err(e) => Outcome(Err(ParseBaseUrl(params.baseUrl, e)), v)
    case Ok(base) =>
      var c := Context(env, params.client, faults, params.dir, base);
      var files := InstallFiles(c, v, params.package.files);
      if files.result.Err? || !unix then files
      else SetExecutable(env, faults, params.dir, files.view, Executables(params.package))
  }

  /** Create the parent directory and the file, download into it while
      hashing, and check the hash. */
  method PlaceOne(env: Env, client: Http.Client, fs: FileSystem, path: string, url: string, expected: seq<byte>)
    returns (r: Result<(), InstallationError>)
    modifies fs
    ensures Outcome(r, fs.View()) == PlaceFile(env, client, fs.faults, old(fs.View()), path, url, expected)
  {
    var parent := env.parent(path);
    if parent.Some? {
      var err := fs.CreateDirAll(parent.value);
      if err.Some? {
        return Err(CreateDir(parent.value, err.value));
      }
    }
    var err := fs.CreateTruncate(path);
    if err.Some? {
      return Err(CreateFile(path, err.value));
    }
    var digest := new Digest(env.sha256);
    var hash := Http.LoadFile(client, url, fs, path, digest);
    if hash.Err? {
      return Err(LoadFile(path, url, hash.error));
    }
    if hash.value != expected {
      return Err(FileHashMismatch(path, expected, hash.value));
    }
    return Ok(());
  }

  /** Download the files in order, stopping at the first failure. */
  method DownloadFiles(env: Env, client: Http.Client, fs: FileSystem, basePath: string, baseUrl: string, files: seq<File>)
    returns (r: Result<(), InstallationError>)
    modifies fs
    ensures Outcome(r, fs.View()) == InstallFiles(Context(env, client, fs.faults, basePath, baseUrl), old(fs.View()), files)
  {
    ghost var c := Context(env, client, fs.faults, basePath, baseUrl);
    for i := 0 to |files|
      invariant InstallFiles(c, old(fs.View()), files) == InstallFiles(c, fs.View(), files[i..])
    {
      var file := files[i];
      assert files[i..][0] == file && files[i..][1..] == files[i + 1..];
      ghost var before := fs.View();
      var path := env.joinPath(basePath, file.destinationSubPath.path);
      var expectedHash := env.hexDecode(file.sha256.hex);
      if expectedHash.Err? {
        return Err(ParseHash(file.sha256.hex, file.destinationSubPath.path, file.subUrl.text, expectedHash.error));
      }
      var url := env.joinUrl(baseUrl, file.subUrl.text);
      if url.Err? {
        return Err(ParseFileUrl(file.subUrl.text, baseUrl, url.error));
      }
      r := PlaceOne(env, client, fs, path, url.value, expectedHash.value);
      assert InstallFile(c, before, file) == Outcome(r, fs.View());
      if r.Err? {
        return;
      }
    }
    assert files[|files|..] == [];
    return Ok(());
  }

  /** Give each of `paths` under `basePath` the executable mode, stopping at
      the first failure. */
  method MarkExecutable(env: Env, fs: FileSystem, basePath: string, paths: seq<LocalPath>)
    returns (r: Result<(), InstallationError>)
    modifies fs
    ensures Outcome(r, fs.View()) == SetExecutable(env, fs.faults, basePath, old(fs.View()), paths)
  {
    for i := 0 to |paths|
      invariant SetExecutable(env, fs.faults, basePath, old(fs.View()), paths) == SetExecutable(env, fs.faults, basePath, fs.View(), paths[i..])
    {
      assert paths[i..][0] == paths[i] && paths[i..][1..] == paths[i + 1..];
      var path := env.joinPath(basePath, paths[i].path);
      var err := fs.SetPermissions(path, EXECUTABLE_MODE);
      if err.Some? {
        return Err(SetFilePermissions(path, err.value));
      }
    }
    assert paths[|paths|..] == [];
    return Ok(());
  }

  /** Prepare the directories, download the files and, where the host has
      POSIX file modes, make the package's binaries executable. */
  method Install(env: Env, unix: bool, fs: FileSystem, params: Params) returns (r: Result<(), InstallationError>)
    modifies fs
    ensures Outcome(r, fs.View()) == InstallSpec(env, unix, fs.faults, params, old(fs.View()))
  {
    var basePath := params.dir;
    var parsed := env.parseUrl(params.baseUrl);
    if parsed.Err? {
      return Err(ParseBaseUrl(params.baseUrl, parsed.error));
    }
    r := DownloadFiles(env, params.client, fs, basePath, parsed.value, params.package.files);
    if r.Err? || !unix {
      return;
    }
    r := MarkExecutable(env, fs, basePath, Executables(params.package));
  }

  /** The hash of `file` decodes, its URL resolves, the server answers it
      with a success status and a complete body, and that body hashes to the
      decoded hash. None of this depends on the filesystem. */
  ghost predicate Verified(c: Context, file: File)
  {
    && c.env.hexDecode(file.sha256.hex).Ok?
    && c.env.joinUrl(c.baseUrl, file.subUrl.text).Ok?
    && var res := c.client.get(c.env.joinUrl(c.baseUrl, file.subUrl.text).value);
    && res.Ok? && Http.IsSuccess(res.value.status) && Http.Complete(res.value.chunks)
    && c.env.sha256(Http.Received(res.value.chunks)) == c.env.hexDecode(file.sha256.hex).value
  }

  /** Placing a file touches files and directories only; on success the
      file holds exactly the body, whose hash is the expected one; on a hash
      mismatch the downloaded file is left in place and `actual` is its hash. */
  lemma PlaceFileOutcome(env: Env, client: Http.Client, faults: Faults, v: FsView, path: string, url: string, expected: seq<byte>)
    ensures var o := PlaceFile(env, client, faults, v, path, url, expected);
      && o.view.modes == v.modes
      && (o.result.Ok? ==>
            && client.get(url).Ok? && Http.IsSuccess(client.get(url).value.status)
            && Http.Complete(client.get(url).value.chunks)
            && path in o.view.files && o.view.files[path] == Http.Received(client.get(url).value.chunks)
            && env.sha256(Http.Received(client.get(url).value.chunks)) == expected)
      && (o.result.Err? && o.result.error.FileHashMismatch? ==>
            && o.result.error == FileHashMismatch(path, expected, o.result.error.actual)
            && o.result.error.actual != expected
            && path in o.view.files && o.result.error.actual == env.sha256(o.view.files[path]))
      && var mk := (match env.parent(path)
                    case None => Step(None, v)
                    case Some(parent) => CreateDirStep(faults, v, parent));
      && var cr := CreateFileStep(faults, mk.view, path);
      && (mk.error.None? && cr.error.None? ==>
            var ld := Http.LoadFileSpec(client, env.sha256, faults, cr.view, url, path);
            ld.result.Ok? && ld.result.value != expected ==>
              o.result == Err(FileHashMismatch(path, expected, ld.result.value)))
  {
    var mk := match env.parent(path)
      case None => Step(None, v)
      case Some(parent) => CreateDirStep(faults, v, parent);
    if mk.error.None? {
      var cr := CreateFileStep(faults, mk.view, path);
      if cr.error.None? {
        Http.LoadFileOutcome(client, env.sha256, faults, cr.view, url, path);
        if client.get(url).Ok? && Http.IsSuccess(client.get(url).value.status) {
          Http.PumpOutcome(faults, cr.view, path, client.get(url).value.chunks);
          assert [] + Http.Pump(faults, cr.view, path, client.get(url).value.chunks).written
              == Http.Pump(faults, cr.view, path, client.get(url).value.chunks).written;
        }
      }
    }
  }

  /** A hash that does not decode and a URL that does not resolve are both
      reported before anything is created; `ParseHash` carries the raw
      destination sub-path and sub-URL. A file installs successfully only if
      it is verified, and then the joined destination holds its body. */
  lemma InstallFileOutcome(c: Context, v: FsView, file: File)
    ensures var o := InstallFile(c, v, file);
      && o.view.modes == v.modes
      && (c.env.hexDecode(file.sha256.hex).Err? ==>
            o == Outcome(Err(ParseHash(file.sha256.hex, file.destinationSubPath.path, file.subUrl.text,
                                       c.env.hexDecode(file.sha256.hex).error)), v))
      && (c.env.hexDecode(file.sha256.hex).Ok? && c.env.joinUrl(c.baseUrl, file.subUrl.text).Err? ==>
            o == Outcome(Err(ParseFileUrl(file.subUrl.text, c.baseUrl, c.env.joinUrl(c.baseUrl, file.subUrl.text).error)), v))
      && (o.result.Ok? ==>
            && Verified(c, file)
            && var path := c.env.joinPath(c.dir, file.destinationSubPath.path);
            && var res := c.client.get(c.env.joinUrl(c.baseUrl, file.subUrl.text).value);
            && path in o.view.files && o.view.files[path] == Http.Received(res.value.chunks))
  {
    var path := c.env.joinPath(c.dir, file.destinationSubPath.path);
    if c.env.hexDecode(file.sha256.hex).Ok? && c.env.joinUrl(c.baseUrl, file.subUrl.text).Ok? {
      PlaceFileOutcome(c.env, c.client, c.faults, v, path, c.env.joinUrl(c.baseUrl, file.subUrl.text).value,
                       c.env.hexDecode(file.sha256.hex).value);
    }
  }

  /** Installing `a + b` installs `a`, and installs `b` after it only when
      all of `a` succeeded: the first failure aborts, and no later file is
      touched. */
  lemma {:induction false} InstallFilesAppend(c: Context, v: FsView, a: seq<File>, b: seq<File>)
    ensures var first := InstallFiles(c, v, a);
      InstallFiles(c, v, a + b) == if first.result.Err? then first else InstallFiles(c, first.view, b)
    decreases |a|
  {
    if a == [] {
      assert a + b == b;
    } else {
      assert (a + b)[0] == a[0] && (a + b)[1..] == a[1..] + b;
      var o := InstallFile(c, v, a[0]);
      if o.result.Ok? {
        InstallFilesAppend(c, o.view, a[1..], b);
      }
    }
  }

  /** The files phase never changes a permission mode, and it succeeds only
      if every file, in order, is verified. */
  lemma {:induction false} InstallFilesOutcome(c: Context, v: FsView, files: seq<File>)
    ensures var o := InstallFiles(c, v, files);
      && o.view.modes == v.modes
      && (o.result.Ok? ==> forall k :: 0 <= k < |files| ==> Verified(c, files[k]))
    decreases |files|
  {
    if files != [] {
      InstallFileOutcome(c, v, files[0]);
      var o := InstallFile(c, v, files[0]);
      if o.result.Ok? {
        InstallFilesOutcome(c, o.view, files[1..]);
        assert forall k :: 1 <= k < |files| ==> files[k] == files[1..][k - 1];
      }
    }
  }

  /** Setting modes changes neither files nor directories, changes the mode
      of no path but the joined designated ones, and on success every one of
      them is executable. */
  lemma {:induction false} SetExecutableOutcome(env: Env, faults: Faults, dir: string, v: FsView, paths: seq<LocalPath>)
    ensures var o := SetExecutable(env, faults, dir, v, paths);
      && o.view.files == v.files && o.view.dirs == v.dirs
      && (forall p :: p in o.view.modes && (p !in v.modes || o.view.modes[p] != v.modes[p]) ==>
            exists k :: 0 <= k < |paths| && p == env.joinPath(dir, paths[k].path))
      && (forall p :: p in v.modes ==> p in o.view.modes)
      && (o.result.Err? ==> o.result.error.SetFilePermissions?)
      && (o.result.Ok? ==> forall k :: 0 <= k < |paths| ==>
            env.joinPath(dir, paths[k].path) in o.view.modes
            && o.view.modes[env.joinPath(dir, paths[k].path)] == EXECUTABLE_MODE)
    decreases |paths|
  {
    if paths != [] {
      var path := env.joinPath(dir, paths[0].path);
      var st := SetPermissionsStep(faults, v, path, EXECUTABLE_MODE);
      if st.error.None? {
        SetExecutableOutcome(env, faults, dir, st.view, paths[1..]);
        var o := SetExecutable(env, faults, dir, v, paths);
        forall p | p in o.view.modes && (p !in v.modes || o.view.modes[p] != v.modes[p])
          ensures exists k :: 0 <= k < |paths| && p == env.joinPath(dir, paths[k].path)
        {
          if p == path {
            assert p == env.joinPath(dir, paths[0].path);
          } else {
            var k :| 0 <= k < |paths[1..]| && p == env.joinPath(dir, paths[1..][k].path);
            assert p == env.joinPath(dir, paths[k + 1].path);
          }
        }
        if o.result.Ok? {
          forall k | 0 <= k < |paths|
            ensures env.joinPath(dir, paths[k].path) in o.view.modes
            ensures o.view.modes[env.joinPath(dir, paths[k].path)] == EXECUTABLE_MODE
          {
            if k > 0 {
              assert paths[k] == paths[1..][k - 1];
            }
          }
        }
      }
    }
  }

  /** A malformed base URL fails first and leaves the filesystem as it was.
      Installation succeeds only if every file is verified and, where modes
      exist, the three designated binaries (never the chainspec) are
      executable; without POSIX modes no mode changes, and with them only
      the designated paths' modes may change. */
  lemma InstallOutcome(env: Env, unix: bool, faults: Faults, params: Params, v: FsView)
    ensures var o := InstallSpec(env, unix, faults, params, v);
      && (env.parseUrl(params.baseUrl).Err? ==>
            o == Outcome(Err(ParseBaseUrl(params.baseUrl, env.parseUrl(params.baseUrl).error)), v))
      && (o.result.Ok? ==>
            && env.parseUrl(params.baseUrl).Ok?
            && var c := Context(env, params.client, faults, params.dir, env.parseUrl(params.baseUrl).value);
            && (forall k :: 0 <= k < |params.package.files| ==> Verified(c, params.package.files[k]))
            && (unix ==> forall e :: e in Executables(params.package) ==>
                  env.joinPath(params.dir, e.path) in o.view.modes
                  && o.view.modes[env.joinPath(params.dir, e.path)] == EXECUTABLE_MODE))
      && (!unix ==> o.view.modes == v.modes)
      && (o.result.Err? && !o.result.error.SetFilePermissions? ==> o.view.modes == v.modes)
      && (forall p :: p in v.modes ==> p in o.view.modes)
      && (forall p :: p in o.view.modes && (p !in v.modes || o.view.modes[p] != v.modes[p]) ==>
            exists e :: e in Executables(params.package) && p == env.joinPath(params.dir, e.path))
  {
    if env.parseUrl(params.baseUrl).Ok? {
      var c := Context(env, params.client, faults, params.dir, env.parseUrl(params.baseUrl).value);
      InstallFilesOutcome(c, v, params.package.files);
      var files := InstallFiles(c, v, params.package.files);
      if files.result.Ok? && unix {
        var paths := Executables(params.package);
        SetExecutableOutcome(env, faults, params.dir, files.view, paths);
        var o := SetExecutable(env, faults, params.dir, files.view, paths);
        forall p | p in o.view.modes && (p !in v.modes || o.view.modes[p] != v.modes[p])
          ensures exists e :: e in paths && p == env.joinPath(params.dir, e.path)
        {
          var k :| 0 <= k < |paths| && p == env.joinPath(params.dir, paths[k].path);
          assert paths[k] in paths;
        }
        if o.result.Ok? {
          forall e | e in paths
            ensures env.joinPath(params.dir, e.path) in o.view.modes
            ensures o.view.modes[env.joinPath(params.dir, e.path)] == EXECUTABLE_MODE
          {
            var k :| 0 <= k < |paths| && paths[k] == e;
          }
        }
      }
    }
  }
}
