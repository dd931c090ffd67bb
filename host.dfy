/** The host the installer runs against: a filesystem whose calls may fail
    (the failures are injected, one function per kind of call) and a running
    SHA-256 digest. Neither is part of the distribution sources; they stand for
    `tokio::fs` and the `sha2` crate. */
module Host {
  import opened Common

  /** An I/O error. */
  datatype IoError =
    | NotFound            // the path does not exist
    | Os(detail: string)  // any other failure the operating system reports

  /** Which filesystem calls fail, and how. `write` is asked with the path and
      the length the file has before the write. */
  datatype Faults = Faults(
    createDir: string -> Option<string>,
    createFile: string -> Option<string>,
    write: (string, nat) -> Option<string>,
    setPermissions: string -> Option<string>)

  /** The observable filesystem: file contents, directories, permission modes. */
  datatype FsView = FsView(files: map<string, seq<byte>>, dirs: set<string>, modes: map<string, int>)

  /** The outcome of one filesystem call: the error, if any, and the new state. */
  datatype Step = Step(error: Option<IoError>, view: FsView)

  /** `create_dir_all`: on success the directory exists. */
  function CreateDirStep(faults: Faults, v: FsView, path: string): Step
  {
    match faults.createDir(path)
    case Some(e) => Step(Some(Os(e)), v)
    case None => Step(None, v.(dirs := v.dirs + {path}))
  }

  /** Opening with create and truncate: on success the file exists and is empty. */
  function CreateFileStep(faults: Faults, v: FsView, path: string): Step
  {
    match faults.createFile(path)
    case Some(e) => Step(Some(Os(e)), v)
    case None => Step(None, v.(files := v.files[path := []]))
  }

  /** `write_all` on an open file: on success the data is appended, on failure
      nothing is. */
  function WriteStep(faults: Faults, v: FsView, path: string, data: seq<byte>): Step
    requires path in v.files
  {
    match faults.write(path, |v.files[path]|)
    case Some(e) => Step(Some(Os(e)), v)
    case None => Step(None, v.(files := v.files[path := v.files[path] + data]))
  }

  /** `set_permissions`: fails on a path that does not exist. */
  function SetPermissionsStep(faults: Faults, v: FsView, path: string, mode: int): Step
  {
    if path !in v.files && path !in v.dirs then Step(Some(NotFound), v)
    else match faults.setPermissions(path)
      case Some(e) => Step(Some(Os(e)), v)
      case None => Step(None, v.(modes := v.modes[path := mode]))
  }

  class FileSystem {
    var files: map<string, seq<byte>>
    var dirs: set<string>
    var modes: map<string, int>
    const faults: Faults

    function View(): FsView
      reads this
    {
      FsView(files, dirs, modes)
    }

    constructor (faults: Faults, initial: FsView)
      ensures View() == initial && this.faults == faults
    {
      this.faults := faults;
      files, dirs, modes := initial.files, initial.dirs, initial.modes;
    }

    method CreateDirAll(path: string) returns (error: Option<IoError>)
      modifies this
      ensures Step(error, View()) == CreateDirStep(faults, old(View()), path)
    {
      match faults.createDir(path) {
        case Some(e) => error := Some(Os(e));
        case None => dirs := dirs + {path}; error := None;
      }
    }

    method CreateTruncate(path: string) returns (error: Option<IoError>)
      modifies this
      ensures Step(error, View()) == CreateFileStep(faults, old(View()), path)
    {
      match faults.createFile(path) {
        case Some(e) => error := Some(Os(e));
        case None => files := files[path := []]; error := None;
      }
    }

    method WriteAll(path: string, data: seq<byte>) returns (error: Option<IoError>)
      requires path in files
      modifies this
      ensures Step(error, View()) == WriteStep(faults, old(View()), path, data)
    {
      match faults.write(path, |files[path]|) {
        case Some(e) => error := Some(Os(e));
        case None => files := files[path := files[path] + data]; error := None;
      }
    }

    method SetPermissions(path: string, mode: int) returns (error: Option<IoError>)
      modifies this
      ensures Step(error, View()) == SetPermissionsStep(faults, old(View()), path, mode)
    {
      if path !in files && path !in dirs {
        return Some(NotFound);
      }
      match faults.setPermissions(path) {
        case Some(e) => error := Some(Os(e));
        case None => modes := modes[path := mode]; error := None;
      }
    }
  }

  /** A running digest. Its state is the bytes fed so far; finalizing applies
      the one-shot hash function to them, which is what the incremental SHA-256
      of FIPS 180-4 computes. */
  class Digest {
    const hash: seq<byte> -> seq<byte>
    var fed: seq<byte>

    constructor (hash: seq<byte> -> seq<byte>)
      ensures this.hash == hash && fed == []
    {
      this.hash := hash;
      fed := [];
    }

    method Update(data: seq<byte>)
      modifies this
      ensures fed == old(fed) + data
    {
      fed := fed + data;
    }

    method Finalize() returns (h: seq<byte>)
      ensures h == hash(fed)
    {
      h := hash(fed);
    }
  }
}
