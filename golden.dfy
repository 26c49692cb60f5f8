/**
 * G, the object assertions are made on. It shares the store and the reporter
 * with its caller; each method changes them step by step and is proved to do
 * exactly what the matching function of GoldenSpec describes.
 */
module Golden {
  import opened Wrappers
  import opened Store
  import opened Errors
  import opened Reporting
  import Fs
  import Paths
  import Spec = GoldenSpec
  import Props = GoldenProperties

  class G {
    const t: Recorder
    const fs: Fs.MemFs

    var shouldUpdate: bool
    var fixtureDir: string
    var fixturePrefix: string
    var fixtureSuffix: string

    /** New/newG: bound to the given reporter and store, with the default configuration. */
    constructor (t: Recorder, fs: Fs.MemFs)
      ensures this.t == t && this.fs == fs
      ensures Config() == Spec.Defaults()
      ensures !shouldUpdate && fixtureDir == "testdata" && fixturePrefix == "" && fixtureSuffix == ".golden"
    {
      this.t := t;
      this.fs := fs;
      shouldUpdate := false;
      fixtureDir := "testdata";
      fixturePrefix := "";
      fixtureSuffix := ".golden";
    }

    function Config(): Spec.Config
      reads this
    {
      Spec.Config(shouldUpdate, fixtureDir, fixturePrefix, fixtureSuffix)
    }

    method Assert(name: string, got: Bytes)
      modifies fs`files, fs`dirs, t`log
      ensures var s := Spec.Assert(Config(), old(fs.Disk()), fs.faults, name, got);
              fs.Disk() == s.disk && t.log == old(t.log) + s.reports
    {
      if shouldUpdate {
        var err := Write(name, got);
        var _ := t.NoError(err);
      } else {
        var err := ReadAndCompare(name, got);
        var _ := t.NoError(err);
      }
    }

    method AssertStruct<V>(name: string, got: V, encode: V -> Option<Bytes>)
      modifies fs`files, fs`dirs, t`log
      ensures var s := Spec.AssertStruct(Config(), old(fs.Disk()), fs.faults, name, got, encode);
              fs.Disk() == s.disk && t.log == old(t.log) + s.reports
    {
      var buf := encode(got);
      if buf.None? {
        t.Errorf(EncodeFailed);
      } else {
        Assert(name, buf.value);
      }
    }

    method Write(name: string, data: Bytes) returns (err: Option<Failure>)
      modifies fs`files, fs`dirs
      ensures Effect(fs.Disk(), err) == Spec.Write(Config(), old(fs.Disk()), fs.faults, name, data)
    {
      var path := Spec.ComputeFilePath(Config(), name);
      err := WriteFile(path, data);
    }

    method ReadAndCompare(name: string, got: Bytes) returns (err: Option<Failure>)
      modifies t`log
      ensures var r := Spec.ReadAndCompare(Config(), fs.Disk(), fs.faults, name, got);
              err == r.err && t.log == old(t.log) + r.reports
    {
      var path := Spec.ComputeFilePath(Config(), name);
      var want := ReadFile(path);
      if want.Err? {
        return Some(ReadFileFailed(want.error));
      }
      var _ := t.Equal(want.value, got);
      return None;
    }

    method ReadFile(path: string) returns (r: Result<Bytes, ReadFailure>)
      ensures r == Spec.ReadFile(fs.Disk(), fs.faults, path)
    {
      var file := fs.Open(path);
      if file.Err? {
        return Err(OpenFailed(path, file.error));
      }
      var data := fs.ReadAll(file.value);
      if data.Err? {
        return Err(ReadAllFailed(path, data.error));
      }
      return Ok(data.value);
    }

    method WriteFile(path: string, data: Bytes) returns (err: Option<Failure>)
      modifies fs`files, fs`dirs
      ensures Effect(fs.Disk(), err) == Spec.WriteFile(old(fs.Disk()), fs.faults, path, data)
    {
      var dir := Paths.Dir(path);
      var mkErr := fs.MkdirAll(dir);
      if mkErr.Some? {
        return Some(MkdirAllFailed(dir, mkErr.value));
      }
      var file := fs.Create(path);
      if file.Err? {
        return Some(CreateFailed(path, file.error));
      }
      var n, writeErr := fs.Write(file.value, data);
      if writeErr.Some? {
        return Some(WriteFailed(path, writeErr.value));
      }
      if n != |data| {
        return Some(ShortWrite(n, |data|));
      }
      return None;
    }
  }

  /**
   * A test that records a fixture and checks against it straight away: when
   * nothing fails in the store, the reporter ends up with nothing new and the
   * fixture file holds the bytes.
   */
  method UpdateThenCompare(g: G, name: string, b: Bytes)
    requires CanWrite(g.fs.faults, Spec.ComputeFilePath(g.Config(), name), |b|)
    requires CanRead(g.fs.faults, Spec.ComputeFilePath(g.Config(), name))
    modifies g`shouldUpdate, g.fs`files, g.fs`dirs, g.t`log
    ensures !g.shouldUpdate && g.t.log == old(g.t.log)
    ensures var path := Spec.ComputeFilePath(g.Config(), name);
            path in g.fs.files && g.fs.files[path] == b
  {
    g.shouldUpdate := true;
    Props.UpdateStoresPayload(g.Config(), g.fs.Disk(), g.fs.faults, name, b);
    g.Assert(name, b);
    g.shouldUpdate := false;
    Props.CompareDetectsMismatch(g.Config(), g.fs.Disk(), g.fs.faults, name, b);
    g.Assert(name, b);
  }
}
