/**
 * The storage collaborator (an afero.Fs in golden.go) as an in-memory store:
 * a map from path to bytes, a set of directories, and a fixed description of
 * which operations fail. Each operation is a pure function of the store.
 */
module Store {
  import opened Wrappers
  import Paths

  type Byte = bv8
  type Bytes = seq<Byte>

  /** Why a storage operation failed: the path does not exist, or an injected I/O error. */
  datatype FsError = NotExist | Injected

  datatype Disk = Disk(files: map<string, Bytes>, dirs: set<string>)

  /**
   * How a write to a given path goes wrong: FailAfter(n) stores at most n bytes
   * and returns an error; ShortAfter(n) stores at most n bytes and returns the
   * count without an error.
   */
  datatype WriteFault = FailAfter(limit: nat) | ShortAfter(limit: nat)

  datatype Faults = Faults(
    mkdirFails: set<string>,
    createFails: set<string>,
    writeFaults: map<string, WriteFault>,
    openFails: set<string>,
    readFails: set<string>)

  /** An open file; writes go to the end of the file at `path`. */
  datatype Handle = Handle(path: string)

  /** The store after an operation, and what the operation returned. */
  datatype Effect<+T> = Effect(disk: Disk, result: T)

  /** What io.Writer.Write returns: the byte count and an optional error. */
  datatype Written = Written(n: nat, err: Option<FsError>)

  function NoFaults(): Faults
  {
    Faults({}, {}, map[], {}, {})
  }

  function Min(a: nat, b: nat): nat
  {
    if a <= b then a else b
  }

  /** The working directory and the root always exist. */
  predicate DirExists(d: Disk, dir: string)
  {
    dir == "." || dir == "/" || dir in d.dirs
  }

  /** No fault stands in the way of writing `size` bytes to `path`. */
  predicate CanWrite(f: Faults, path: string, size: nat)
  {
    && Paths.Dir(path) !in f.mkdirFails
    && path !in f.createFails
    && (path in f.writeFaults ==> f.writeFaults[path].ShortAfter? && size <= f.writeFaults[path].limit)
  }

  /** No fault stands in the way of opening and reading `path`. */
  predicate CanRead(f: Faults, path: string)
  {
    path !in f.openFails && path !in f.readFails
  }

  /** MkdirAll: creates `dir` and its parents, or fails leaving the store as it was. */
  function MkdirAll(d: Disk, f: Faults, dir: string): Effect<Option<FsError>>
  {
    if dir in f.mkdirFails then Effect(d, Some(Injected))
    else Effect(d.(dirs := d.dirs + Paths.Ancestors(dir)), None)
  }

  /** Create: makes `path` an empty file (truncating it if present); its directory must exist. */
  function Create(d: Disk, f: Faults, path: string): Effect<Result<Handle, FsError>>
  {
    if path in f.createFails then Effect(d, Err(Injected))
    else if !DirExists(d, Paths.Dir(path)) then Effect(d, Err(NotExist))
    else Effect(d.(files := d.files[path := []]), Ok(Handle(path)))
  }

  /** Write: appends as many bytes of `data` as the faults allow and reports how many. */
  function Write(d: Disk, f: Faults, h: Handle, data: Bytes): Effect<Written>
  {
    var k := if h.path in f.writeFaults then Min(f.writeFaults[h.path].limit, |data|) else |data|;
    var current := if h.path in d.files then d.files[h.path] else [];
    var err := if h.path in f.writeFaults && f.writeFaults[h.path].FailAfter? then Some(Injected) else None;
    Effect(d.(files := d.files[h.path := current + data[..k]]), Written(k, err))
  }

  /** Open: fails if there is no file at `path` or opening it is faulty. */
  function Open(d: Disk, f: Faults, path: string): Result<Handle, FsError>
  {
    if path !in d.files then Err(NotExist)
    else if path in f.openFails then Err(Injected)
    else Ok(Handle(path))
  }

  /** ReadAll: the whole content of the file behind `h`. */
  function ReadAll(d: Disk, f: Faults, h: Handle): Result<Bytes, FsError>
  {
    if h.path in f.readFails then Err(Injected)
    else if h.path !in d.files then Err(NotExist)
    else Ok(d.files[h.path])
  }
}

/** The store as the object golden.go is handed: its state changes in place. */
module Fs {
  import opened Wrappers
  import opened Store
  import Paths

  class MemFs {
    var files: map<string, Bytes>
    var dirs: set<string>
    var faults: Faults

    constructor (faults: Faults)
      ensures files == map[] && dirs == {} && this.faults == faults
    {
      files := map[];
      dirs := {};
      this.faults := faults;
    }

    function Disk(): Store.Disk
      reads this
    {
      Store.Disk(files, dirs)
    }

    method MkdirAll(dir: string) returns (err: Option<FsError>)
      modifies `dirs
      ensures Effect(Disk(), err) == Store.MkdirAll(old(Disk()), faults, dir)
    {
      if dir in faults.mkdirFails {
        err := Some(Injected);
      } else {
        dirs := dirs + Paths.Ancestors(dir);
        err := None;
      }
    }

    method Create(path: string) returns (file: Result<Handle, FsError>)
      modifies `files
      ensures Effect(Disk(), file) == Store.Create(old(Disk()), faults, path)
    {
      if path in faults.createFails {
        file := Err(Injected);
      } else if !DirExists(Disk(), Paths.Dir(path)) {
        file := Err(NotExist);
      } else {
        files := files[path := []];
        file := Ok(Handle(path));
      }
    }

    method Write(file: Handle, data: Bytes) returns (n: nat, err: Option<FsError>)
      modifies `files
      ensures Effect(Disk(), Written(n, err)) == Store.Write(old(Disk()), faults, file, data)
    {
      n := |data|;
      err := None;
      if file.path in faults.writeFaults {
        var fault := faults.writeFaults[file.path];
        n := Min(fault.limit, |data|);
        if fault.FailAfter? {
          err := Some(Injected);
        }
      }
      var current := if file.path in files then files[file.path] else [];
      files := files[file.path := current + data[..n]];
    }

    method Open(path: string) returns (file: Result<Handle, FsError>)
      ensures file == Store.Open(Disk(), faults, path)
      ensures file.Ok? <==> path in files && path !in faults.openFails
    {
      if path !in files {
        file := Err(NotExist);
      } else if path in faults.openFails {
        file := Err(Injected);
      } else {
        file := Ok(Handle(path));
      }
    }

    method ReadAll(file: Handle) returns (data: Result<Bytes, FsError>)
      ensures data == Store.ReadAll(Disk(), faults, file)
      ensures data.Ok? ==> file.path in files && data.value == files[file.path]
    {
      if file.path in faults.readFails {
        data := Err(Injected);
      } else if file.path !in files {
        data := Err(NotExist);
      } else {
        data := Ok(files[file.path]);
      }
    }
  }
}
