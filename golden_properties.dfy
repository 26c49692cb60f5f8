/** What golden.go promises, proved about the functions of GoldenSpec. */
module GoldenProperties {
  import opened Wrappers
  import opened Store
  import opened Errors
  import opened Reporting
  import opened GoldenSpec
  import Paths

  // ---------------------------------------------------------------- paths

  /** With the defaults of newG a fixture lives at "testdata/" + name + ".golden". */
  lemma DefaultPath(name: string)
    ensures ComputeFilePath(Defaults(), name) == "testdata/" + name + ".golden"
  {
  }

  /** The derived path depends on the name: two names never share a fixture file. */
  lemma ComputeFilePathInjective(c: Config, name1: string, name2: string)
    requires ComputeFilePath(c, name1) == ComputeFilePath(c, name2)
    ensures name1 == name2
  {
    var p := c.fixturePrefix;
    var s := c.fixtureSuffix;
    Paths.JoinInjective(c.fixtureDir, p + name1 + s, p + name2 + s);
    assert |name1| == |name2|;
    assert name1 == (p + name1 + s)[|p|..|p| + |name1|];
    assert name2 == (p + name2 + s)[|p|..|p| + |name2|];
  }

  /** A name, prefix and suffix without '/' put the fixture directly in the fixture directory. */
  lemma FixtureInFixtureDir(c: Config, name: string)
    requires c.fixtureDir != "" && c.fixturePrefix + name + c.fixtureSuffix != ""
    requires '/' !in c.fixturePrefix + name + c.fixtureSuffix
    ensures Paths.Dir(ComputeFilePath(c, name)) == c.fixtureDir
  {
    Paths.DirOfJoin(c.fixtureDir, c.fixturePrefix + name + c.fixtureSuffix);
  }

  /** With the defaults and a name without '/', the directory writeFile creates is "testdata". */
  lemma DefaultFixtureDir(name: string)
    requires '/' !in name
    ensures Paths.Dir(ComputeFilePath(Defaults(), name)) == "testdata"
  {
    var c := Defaults();
    assert c.fixturePrefix + name + c.fixtureSuffix == name + ".golden";
    assert '/' !in name + ".golden" by {
      forall i | 0 <= i < |name + ".golden"|
        ensures (name + ".golden")[i] != '/'
      {
        if i < |name| {
          assert (name + ".golden")[i] == name[i];
        }
      }
    }
    FixtureInFixtureDir(c, name);
  }

  // ---------------------------------------------------------------- update mode

  /** Update mode with nothing failing: the fixture holds exactly `got` afterwards, whatever it held before, and nothing is reported. */
  lemma UpdateStoresPayload(c: Config, d: Disk, f: Faults, name: string, got: Bytes)
    requires c.shouldUpdate
    requires CanWrite(f, ComputeFilePath(c, name), |got|)
    ensures var s := Assert(c, d, f, name, got);
            && s.reports == []
            && ComputeFilePath(c, name) in s.disk.files
            && s.disk.files[ComputeFilePath(c, name)] == got
            && Paths.Dir(ComputeFilePath(c, name)) in s.disk.dirs
  {
  }

  /** Update mode touches no file but the fixture, and never removes a directory. */
  lemma UpdateTouchesOnlyFixture(c: Config, d: Disk, f: Faults, name: string, got: Bytes, other: string)
    requires c.shouldUpdate && other != ComputeFilePath(c, name)
    ensures var s := Assert(c, d, f, name, got);
            && d.dirs <= s.disk.dirs
            && (other in s.disk.files <==> other in d.files)
            && (other in d.files ==> s.disk.files[other] == d.files[other])
  {
  }

  /** A silent update really stored the bytes: success is never claimed for a short or failed write. */
  lemma UpdateSuccessMeansStored(c: Config, d: Disk, f: Faults, name: string, got: Bytes)
    requires c.shouldUpdate
    requires Assert(c, d, f, name, got).reports == []
    ensures var s := Assert(c, d, f, name, got);
            ComputeFilePath(c, name) in s.disk.files && s.disk.files[ComputeFilePath(c, name)] == got
  {
  }

  /** A write that stores fewer bytes than asked but returns no error is reported once, as a short write. */
  lemma ShortWriteReported(c: Config, d: Disk, f: Faults, name: string, got: Bytes, n: nat)
    requires c.shouldUpdate
    requires var path := ComputeFilePath(c, name);
             Paths.Dir(path) !in f.mkdirFails && path !in f.createFails
             && path in f.writeFaults && f.writeFaults[path] == ShortAfter(n) && n < |got|
    ensures var s := Assert(c, d, f, name, got);
            && s.reports == [Error(ShortWrite(n, |got|))]
            && s.disk.files[ComputeFilePath(c, name)] == got[..n]
  {
  }

  /** A write that returns an error is reported once, as a write failure. */
  lemma WriteErrorReported(c: Config, d: Disk, f: Faults, name: string, got: Bytes)
    requires c.shouldUpdate
    requires var path := ComputeFilePath(c, name);
             Paths.Dir(path) !in f.mkdirFails && path !in f.createFails
             && path in f.writeFaults && f.writeFaults[path].FailAfter?
    ensures Assert(c, d, f, name, got).reports == [Error(WriteFailed(ComputeFilePath(c, name), Injected))]
  {
  }

  /** A failing MkdirAll stops writeFile before create and write: the store is as it was. */
  lemma MkdirFailureStops(c: Config, d: Disk, f: Faults, name: string, got: Bytes)
    requires c.shouldUpdate
    requires Paths.Dir(ComputeFilePath(c, name)) in f.mkdirFails
    ensures var s := Assert(c, d, f, name, got);
            && s.disk == d
            && s.reports == [Error(MkdirAllFailed(Paths.Dir(ComputeFilePath(c, name)), Injected))]
  {
  }

  /** A failing Create stops writeFile before the write: no file changes. */
  lemma CreateFailureStops(c: Config, d: Disk, f: Faults, name: string, got: Bytes)
    requires c.shouldUpdate
    requires var path := ComputeFilePath(c, name);
             Paths.Dir(path) !in f.mkdirFails && path in f.createFails
    ensures var s := Assert(c, d, f, name, got);
            && s.disk.files == d.files
            && s.reports == [Error(CreateFailed(ComputeFilePath(c, name), Injected))]
  {
  }

  // ---------------------------------------------------------------- compare mode

  /** Compare mode never changes the store. */
  lemma CompareLeavesStore(c: Config, d: Disk, f: Faults, name: string, got: Bytes)
    requires !c.shouldUpdate
    ensures Assert(c, d, f, name, got).disk == d
  {
  }

  /** Compare mode without a stored fixture reports one open failure and compares nothing. */
  lemma MissingFixtureReported(c: Config, d: Disk, f: Faults, name: string, got: Bytes)
    requires !c.shouldUpdate && ComputeFilePath(c, name) !in d.files
    ensures Assert(c, d, f, name, got).reports
            == [Error(ReadFileFailed(OpenFailed(ComputeFilePath(c, name), NotExist)))]
  {
  }

  /** A fixture that cannot be read is reported once, as that read failure, and no comparison is made. */
  lemma ReadFailureReported(c: Config, d: Disk, f: Faults, name: string, got: Bytes)
    requires !c.shouldUpdate && ReadFile(d, f, ComputeFilePath(c, name)).Err?
    ensures Assert(c, d, f, name, got).reports
            == [Error(ReadFileFailed(ReadFile(d, f, ComputeFilePath(c, name)).error))]
  {
  }

  /** A readable fixture: nothing is reported iff it equals `got`; otherwise one mismatch carrying both. */
  lemma CompareDetectsMismatch(c: Config, d: Disk, f: Faults, name: string, got: Bytes)
    requires !c.shouldUpdate
    requires ComputeFilePath(c, name) in d.files && CanRead(f, ComputeFilePath(c, name))
    ensures var want := d.files[ComputeFilePath(c, name)];
            && (Assert(c, d, f, name, got).reports == [] <==> want == got)
            && (want != got ==> Assert(c, d, f, name, got).reports == [Unequal(want, got)])
  {
  }

  // ---------------------------------------------------------------- single calls

  /** No call of Assert reports more than once. */
  lemma AssertReportsAtMostOnce(c: Config, d: Disk, f: Faults, name: string, got: Bytes)
    ensures |Assert(c, d, f, name, got).reports| <= 1
  {
  }

  /** No call of AssertStruct reports more than once. */
  lemma AssertStructReportsAtMostOnce<V>(c: Config, d: Disk, f: Faults, name: string, got: V, encode: V -> Option<Bytes>)
    ensures |AssertStruct(c, d, f, name, got, encode).reports| <= 1
  {
  }

  /** An encoding failure is reported once and Assert is not reached: the store is untouched. */
  lemma AssertStructEncodeFailure<V>(c: Config, d: Disk, f: Faults, name: string, got: V, encode: V -> Option<Bytes>)
    requires encode(got).None?
    ensures AssertStruct(c, d, f, name, got, encode) == Step(d, [Error(EncodeFailed)])
  {
  }

  /** A successful encoding makes AssertStruct behave as Assert on the encoded bytes. */
  lemma AssertStructDelegates<V>(c: Config, d: Disk, f: Faults, name: string, got: V, encode: V -> Option<Bytes>)
    requires encode(got).Some?
    ensures AssertStruct(c, d, f, name, got, encode) == Assert(c, d, f, name, encode(got).value)
  {
  }

  // ---------------------------------------------------------------- sequences of calls

  /** Round trip: a successful update followed by a compare of the same bytes reports nothing. */
  lemma RoundTrip(c: Config, d: Disk, f: Faults, name: string, b: Bytes)
    requires Assert(c.(shouldUpdate := true), d, f, name, b).reports == []
    requires CanRead(f, ComputeFilePath(c, name))
    ensures var s := Assert(c.(shouldUpdate := true), d, f, name, b);
            Assert(c.(shouldUpdate := false), s.disk, f, name, b).reports == []
  {
  }

  /** Updating with `b1` and comparing with a different `b2` reports exactly that mismatch. */
  lemma UpdateThenCompareDifferent(c: Config, d: Disk, f: Faults, name: string, b1: Bytes, b2: Bytes)
    requires CanWrite(f, ComputeFilePath(c, name), |b1|) && CanRead(f, ComputeFilePath(c, name))
    requires b1 != b2
    ensures var s := Assert(c.(shouldUpdate := true), d, f, name, b1);
            Assert(c.(shouldUpdate := false), s.disk, f, name, b2).reports == [Unequal(b1, b2)]
  {
    UpdateStoresPayload(c.(shouldUpdate := true), d, f, name, b1);
  }

  /** Structured round trip: update then compare of one encodable value reports nothing. */
  lemma StructRoundTrip<V>(c: Config, d: Disk, f: Faults, name: string, v: V, encode: V -> Option<Bytes>)
    requires encode(v).Some?
    requires CanWrite(f, ComputeFilePath(c, name), |encode(v).value|) && CanRead(f, ComputeFilePath(c, name))
    ensures var s := AssertStruct(c.(shouldUpdate := true), d, f, name, v, encode);
            && s.reports == []
            && AssertStruct(c.(shouldUpdate := false), s.disk, f, name, v, encode).reports == []
  {
  }

  /** What reading a path yields depends on nothing but the file stored at that path. */
  lemma ReadFileIsLocal(d1: Disk, d2: Disk, f: Faults, path: string)
    requires path in d1.files <==> path in d2.files
    requires path in d1.files ==> d1.files[path] == d2.files[path]
    ensures ReadFile(d1, f, path) == ReadFile(d2, f, path)
  {
  }

  /** Updating one fixture does not change what comparing another one reports. */
  lemma OtherFixturesUnaffected(c: Config, d: Disk, f: Faults, name1: string, b1: Bytes, name2: string, b2: Bytes)
    requires name1 != name2
    ensures var s := Assert(c.(shouldUpdate := true), d, f, name1, b1);
            Assert(c.(shouldUpdate := false), s.disk, f, name2, b2).reports
            == Assert(c.(shouldUpdate := false), d, f, name2, b2).reports
  {
    var path2 := ComputeFilePath(c, name2);
    if ComputeFilePath(c, name1) == path2 {
      ComputeFilePathInjective(c, name1, name2);
    }
    var s := Assert(c.(shouldUpdate := true), d, f, name1, b1);
    UpdateTouchesOnlyFixture(c.(shouldUpdate := true), d, f, name1, b1, path2);
    ReadFileIsLocal(s.disk, d, f, path2);
  }

  /** The worked example: update, compare with the same bytes, compare with one byte changed. */
  lemma SampleScenario(d: Disk)
    ensures var g := Defaults();
            var s1 := Assert(g.(shouldUpdate := true), d, NoFaults(), "sample", [0x01, 0x02, 0x03]);
            var s2 := Assert(g, s1.disk, NoFaults(), "sample", [0x01, 0x02, 0x03]);
            var s3 := Assert(g, s2.disk, NoFaults(), "sample", [0x01, 0x02, 0xFF]);
            && s1.reports == []
            && "testdata/sample.golden" in s1.disk.files
            && s1.disk.files["testdata/sample.golden"] == [0x01, 0x02, 0x03]
            && s2.reports == []
            && s3.reports == [Unequal([0x01, 0x02, 0x03], [0x01, 0x02, 0xFF])]
  {
    var g := Defaults();
    DefaultPath("sample");
    assert ComputeFilePath(g, "sample") == "testdata/sample.golden";
    UpdateStoresPayload(g.(shouldUpdate := true), d, NoFaults(), "sample", [0x01, 0x02, 0x03]);
    var s1 := Assert(g.(shouldUpdate := true), d, NoFaults(), "sample", [0x01, 0x02, 0x03]);
    CompareDetectsMismatch(g, s1.disk, NoFaults(), "sample", [0x01, 0x02, 0x03]);
    CompareDetectsMismatch(g, s1.disk, NoFaults(), "sample", [0x01, 0x02, 0xFF]);
  }
}
