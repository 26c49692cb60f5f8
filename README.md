# golden: a verified model of a golden-file assertion helper

`golden.go` lets a Go test compare bytes, or a gob-encoded value, against a
stored "golden" fixture file. An object `G` holds a test reporter, a
filesystem and four settings: `ShouldUpdate`, `FixtureDir`, `FixturePrefix`
and `FixtureSuffix`. The defaults are `false`, `"testdata"`, `""` and
`".golden"`. A call `Assert(name, got)` derives the path
`Join(FixtureDir, FixturePrefix + name + FixtureSuffix)`. Then one of two
things happens:

- in update mode it writes `got` there: mkdir-all, create, write, then a
  short-write check;
- in compare mode it reads the file and reports a mismatch with `got`.

Every error becomes one non-fatal report. `AssertStruct` encodes a value
first and reports an encoding failure instead of calling `Assert`.

The model has these modules:

- `Paths` (`paths.dfy`): `filepath.Join` and `filepath.Dir` for `/`-separated
  paths.
- `Store` (`store.dfy`): an in-memory store as pure functions. Its state is a
  map from path to bytes plus a set of directories. A value of type `Faults`
  says which MkdirAll, Create, Open and ReadAll calls fail. It also says which
  writes stop early, either with an error (`FailAfter`) or by returning a short
  count (`ShortAfter`). Create needs its parent directory to exist, which is
  why the MkdirAll step matters.
- `Fs` (`store.dfy`): the same store as the object `G` shares (`MemFs`). Its
  methods change the store in place.
- `Errors` and `Reporting` (`reporting.dfy`): golden.go's error values as
  data. The reporter is a `Recorder` whose log gets `Error(failure)` or
  `Unequal(want, got)` records, one per failure.
- `GoldenSpec` (`golden_spec.dfy`): every operation of golden.go as a pure
  function of the configuration, the store and its faults.
- `Golden` (`golden.dfy`): the class `G`. Its methods work step by step on the
  shared `MemFs` and `Recorder`, and each one is proved to match its
  `GoldenSpec` function.
- `GoldenProperties` (`golden_properties.dfy`): the lemmas about `GoldenSpec`.
  They cover path derivation, update and compare behaviour, round trips, and
  one report at most per call.

The encoder that `AssertStruct` uses is a parameter `encode: V -> Option<Bytes>`,
so it is deterministic and may fail.

## Model

| member | source | states |
|---|---|---|
| Paths.LastSlash | golden.go:99 | finds the last '/' of a path, or says there is none; this is the split `filepath.Dir` makes |
| Paths.JoinInjective | golden.go:122 | joining two elements onto the same directory gives two different paths |
| Paths.DirOfJoin | golden.go:99 | for an element without '/', the Dir of the joined path is the directory it was joined onto |
| Fs.MemFs.MkdirAll | golden.go:99-102 | MkdirAll either adds the directory and its parents or fails and leaves the store unchanged |
| Fs.MemFs.Create | golden.go:104-107 | Create either truncates or creates the file, or fails when faulted or when the parent directory is missing |
| Fs.MemFs.Write | golden.go:110 | Write appends the bytes the faults allow and returns that count plus any error |
| Fs.MemFs.Open | golden.go:84-87 | Open succeeds exactly when the file exists and opening it is not faulted |
| Fs.MemFs.ReadAll | golden.go:90-93 | ReadAll returns the whole stored content of the file, or an error |
| Reporting.Recorder.NoError | golden.go:48 | `assert.NoError` adds one `Error` report exactly when there is an error |
| Reporting.Recorder.Equal | golden.go:79 | `assert.Equal` adds one `Unequal(want, got)` report exactly when the bytes differ |
| Reporting.Recorder.Errorf | golden.go:62 | `t.Errorf` adds exactly one `Error` report |
| Golden.G.constructor | golden.go:27-40 | a new G starts in compare mode with dir `testdata`, prefix `""` and suffix `.golden`, bound to the given reporter and store |
| Golden.G.Assert | golden.go:45-53 | the new store and the reports added are those `GoldenSpec.Assert` gives for the old store |
| Golden.G.AssertStruct | golden.go:59-66 | the new store and the reports added are those `GoldenSpec.AssertStruct` gives |
| Golden.G.Write | golden.go:68-71 | writes to the derived path, as `GoldenSpec.Write` describes |
| Golden.G.ReadAndCompare | golden.go:73-81 | returns the read error or reports the comparison, as `GoldenSpec.ReadAndCompare` describes, and never changes the store |
| Golden.G.ReadFile | golden.go:83-96 | returns the stored bytes or the open or read-all failure, as `GoldenSpec.ReadFile` describes |
| Golden.G.WriteFile | golden.go:98-119 | does mkdir-all, create and write with early returns, as `GoldenSpec.WriteFile` describes |
| Golden.UpdateThenCompare | golden.go:45-53 | on the objects, update then compare of the same bytes adds no report and leaves the fixture holding the bytes |
| GoldenProperties.DefaultPath | golden.go:32-44 | with the defaults, the fixture for `name` is `"testdata/" + name + ".golden"` |
| GoldenProperties.ComputeFilePathInjective | golden.go:121-123 | different names give different fixture paths |
| GoldenProperties.FixtureInFixtureDir | golden.go:99 | if prefix, name and suffix contain no '/', writeFile creates the fixture directory itself |
| GoldenProperties.DefaultFixtureDir | golden.go:36-38 | with the defaults and a name without '/', the directory created is `testdata` |
| GoldenProperties.UpdateStoresPayload | golden.go:45-48 | an update with no fault maps the path to exactly `got`, whatever was there before: no report, and the directory exists |
| GoldenProperties.UpdateTouchesOnlyFixture | golden.go:98-118 | an update changes no file except the fixture and removes no directory |
| GoldenProperties.UpdateSuccessMeansStored | golden.go:110-118 | an update that reports nothing has stored exactly `got` |
| GoldenProperties.ShortWriteReported | golden.go:114-116 | a short write without an error gives exactly one `ShortWrite(n, len)` report; the file holds only the first n bytes |
| GoldenProperties.WriteErrorReported | golden.go:110-113 | a write error gives exactly one `WriteFailed` report |
| GoldenProperties.MkdirFailureStops | golden.go:99-102 | a MkdirAll failure gives one report, and the store is unchanged because create and write never run |
| GoldenProperties.CreateFailureStops | golden.go:104-107 | a Create failure gives one report, and no file changes because write never runs |
| GoldenProperties.CompareLeavesStore | golden.go:73-96 | compare mode never modifies the store |
| GoldenProperties.MissingFixtureReported | golden.go:75-78 | with no stored fixture, compare mode gives exactly one open failure (`NotExist`) and no `Unequal` |
| GoldenProperties.ReadFailureReported | golden.go:75-78 | any read failure gives exactly one report of that failure, and no comparison is made |
| GoldenProperties.CompareDetectsMismatch | golden.go:79-80 | for a readable fixture there is no report if and only if the bytes are equal; otherwise there is one `Unequal(stored, got)` |
| GoldenProperties.AssertReportsAtMostOnce | golden.go:45-53 | no `Assert` call adds more than one report |
| GoldenProperties.AssertStructReportsAtMostOnce | golden.go:59-66 | no `AssertStruct` call adds more than one report |
| GoldenProperties.AssertStructEncodeFailure | golden.go:61-62 | when encoding fails there is one `EncodeFailed` report, `Assert` is not reached and the store is unchanged |
| GoldenProperties.AssertStructDelegates | golden.go:63-64 | when encoding succeeds, `AssertStruct` is exactly `Assert` on the encoded bytes |
| GoldenProperties.RoundTrip | golden.go:45-53 | a successful update followed by a compare of the same bytes reports nothing |
| GoldenProperties.UpdateThenCompareDifferent | golden.go:45-53 | update with `b1`, then compare with a different `b2`, gives exactly `Unequal(b1, b2)` |
| GoldenProperties.StructRoundTrip | golden.go:59-66 | update then compare of one encodable value reports nothing |
| GoldenProperties.ReadFileIsLocal | golden.go:83-96 | what reading a path returns depends only on the file at that path |
| GoldenProperties.OtherFixturesUnaffected | golden.go:45-53 | updating one fixture does not change what comparing a fixture with another name reports |
| GoldenProperties.SampleScenario | golden.go:45-53 | `sample` with `[1,2,3]`: update stores `testdata/sample.golden` with no report, the same compare reports nothing, and `[1,2,0xFF]` gives one `Unequal` |

## Left out

- The real filesystem (`afero.NewOsFs()`), the `0755` permission and the `Close` calls deferred on both handles. `New` builds an OS filesystem; the constructor here takes an in-memory `MemFs` instead.
- File handles have no offset: a write appends to the file, and that is all golden.go does right after Create.
- Path cleaning in `filepath.Join` and `filepath.Dir` (collapsing `//`, `.` and `..`). Because of this, `ComputeFilePathInjective` holds for the model's join. Go's join can send two different names such as `a/../b` and `b` to one file.
- The gob encoding. `AssertStruct` takes the encoder as a parameter, a total function that returns `None` on failure. The `%T` type name in the message is not kept.
- Message text and error wrapping, including the `%w` verb passed to `t.Errorf`, which `Errorf` does not support. The errors are kept as structured values (`Errors.Failure`).
- testify's formatting, and the way `assert.Equal` tells a nil `[]byte` from an empty one. Go's nil slices are not modelled: bytes are compared as sequences.
- `testing.TB` beyond recording failures; `Recorder.Failed` gives whether anything was reported.
- io.Writer's rule that a short count comes with an error. The `ShortAfter` fault breaks that rule on purpose, because golden.go checks for it (golden.go:114).
- Concurrency: golden.go has none of its own.
