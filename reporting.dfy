/** The error values golden.go builds with fmt.Errorf, as data instead of message text. */
module Errors {
  import Store

  /** What readFile returns on failure: "open: …" or "read all: …". */
  datatype ReadFailure =
    | OpenFailed(path: string, cause: Store.FsError)
    | ReadAllFailed(path: string, cause: Store.FsError)

  datatype Failure =
    | MkdirAllFailed(dir: string, cause: Store.FsError)   // "mkdir all: …"
    | CreateFailed(path: string, cause: Store.FsError)    // "create: …"
    | WriteFailed(path: string, cause: Store.FsError)     // "write: …"
    | ShortWrite(written: nat, total: nat)                // "could only write n of m bytes"
    | ReadFileFailed(readFailure: ReadFailure)            // "read file: …"
    | EncodeFailed                                        // "unable to encode instance of …"
}

/**
 * The test reporter (testing.TB together with testify's assert package):
 * every failure is appended to a log and the test goes on.
 */
module Reporting {
  import opened Wrappers
  import opened Store
  import opened Errors

  datatype Report =
    | Error(failure: Failure)            // assert.NoError with an error, or t.Errorf
    | Unequal(want: Bytes, got: Bytes)   // assert.Equal with different values

  /** The reports assert.NoError(t, err) adds. */
  function NoErrorReports(err: Option<Failure>): seq<Report>
  {
    if err.Some? then [Error(err.value)] else []
  }

  /** The reports assert.Equal(t, want, got) adds. */
  function EqualReports(want: Bytes, got: Bytes): seq<Report>
  {
    if want == got then [] else [Unequal(want, got)]
  }

  class Recorder {
    var log: seq<Report>

    constructor ()
      ensures log == []
    {
      log := [];
    }

    /** testing.TB.Failed */
    predicate Failed()
      reads this
    {
      log != []
    }

    method NoError(err: Option<Failure>) returns (ok: bool)
      modifies `log
      ensures ok <==> err.None?
      ensures log == old(log) + NoErrorReports(err)
    {
      ok := err.None?;
      if !ok {
        log := log + [Error(err.value)];
      }
    }

    method Equal(want: Bytes, got: Bytes) returns (ok: bool)
      modifies `log
      ensures ok <==> want == got
      ensures log == old(log) + EqualReports(want, got)
    {
      ok := want == got;
      if !ok {
        log := log + [Unequal(want, got)];
      }
    }

    method Errorf(failure: Failure)
      modifies `log
      ensures log == old(log) + [Error(failure)]
    {
      log := log + [Error(failure)];
    }
  }
}
