/**
 * What each operation of golden.go does, as pure functions of the
 * configuration of a G, the store and its faults. The class in module Golden
 * is proved to behave exactly like these; module GoldenProperties proves what
 * they promise.
 */
module GoldenSpec {
  import opened Wrappers
  import opened Store
  import opened Errors
  import opened Reporting
  import Paths

  /** The fields of G that the caller sets. */
  datatype Config = Config(
    shouldUpdate: bool,
    fixtureDir: string,
    fixturePrefix: string,
    fixtureSuffix: string)

  /** The defaults newG fills in. */
  function Defaults(): Config
  {
    Config(false, "testdata", "", ".golden")
  }

  function ComputeFilePath(c: Config, name: string): string
  {
    Paths.Join(c.fixtureDir, c.fixturePrefix + name + c.fixtureSuffix)
  }

  /** The store after an assertion and the reports it made. */
  datatype Step = Step(disk: Disk, reports: seq<Report>)

  /** What readAndCompare reports itself and the error it returns. */
  datatype Compared = Compared(reports: seq<Report>, err: Option<Failure>)

  /** writeFile: mkdir-all of the directory, create, write, then the short-write check. */
  function WriteFile(d: Disk, f: Faults, path: string, data: Bytes): Effect<Option<Failure>>
  {
    var dir := Paths.Dir(path);
    var mk := Store.MkdirAll(d, f, dir);
    if mk.result.Some? then Effect(mk.disk, Some(MkdirAllFailed(dir, mk.result.value)))
    else
      var cr := Store.Create(mk.disk, f, path);
      if cr.result.Err? then Effect(cr.disk, Some(CreateFailed(path, cr.result.error)))
      else
        var w := Store.Write(cr.disk, f, cr.result.value, data);
        if w.result.err.Some? then Effect(w.disk, Some(WriteFailed(path, w.result.err.value)))
        else if w.result.n != |data| then Effect(w.disk, Some(ShortWrite(w.result.n, |data|)))
        else Effect(w.disk, None)
  }

  function Write(c: Config, d: Disk, f: Faults, name: string, data: Bytes): Effect<Option<Failure>>
  {
    WriteFile(d, f, ComputeFilePath(c, name), data)
  }

  /** readFile: open, then read everything. */
  function ReadFile(d: Disk, f: Faults, path: string): Result<Bytes, ReadFailure>
  {
    match Store.Open(d, f, path)
    case Err(e) => Err(OpenFailed(path, e))
    case Ok(h) =>
      match Store.ReadAll(d, f, h)
      case Err(e) => Err(ReadAllFailed(path, e))
      case Ok(data) => Ok(data)
  }

  /** readAndCompare: a read failure is returned; otherwise the bytes are compared with assert.Equal. */
  function ReadAndCompare(c: Config, d: Disk, f: Faults, name: string, got: Bytes): Compared
  {
    match ReadFile(d, f, ComputeFilePath(c, name))
    case Err(e) => Compared([], Some(ReadFileFailed(e)))
    case Ok(want) => Compared(EqualReports(want, got), None)
  }

  /** Assert: the mode flag picks write or read-and-compare; an error goes to assert.NoError. */
  function Assert(c: Config, d: Disk, f: Faults, name: string, got: Bytes): Step
  {
    if c.shouldUpdate then
      var w := Write(c, d, f, name, got);
      Step(w.disk, NoErrorReports(w.result))
    else
      var r := ReadAndCompare(c, d, f, name, got);
      Step(d, r.reports + NoErrorReports(r.err))
  }

  /** AssertStruct: encode, report an encoding failure, or assert on the encoded bytes. */
  function AssertStruct<V>(c: Config, d: Disk, f: Faults, name: string, got: V, encode: V -> Option<Bytes>): Step
  {
    match encode(got)
    case None => Step(d, [Error(EncodeFailed)])
    case Some(buf) => Assert(c, d, f, name, buf)
  }
}
