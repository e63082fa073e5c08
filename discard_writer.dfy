/** A writer that does nothing: a usable leaf for the fan-out writer. */
module DiscardWriter {
  import opened Records

  /** `DiscardWriter`: no state at all. */
  class DiscardWriter {
    constructor ()
    {
    }

    /** `Write` returns nil for any record. */
    method Write(x: Record) returns (err: Option<Error>)
      ensures err == None
    {
      return None;
    }

    /** `Close` returns nil. */
    method Close() returns (err: Option<Error>)
      ensures err == None
    {
      return None;
    }

    /** `Cancel` returns nil. */
    method Cancel() returns (err: Option<Error>)
      ensures err == None
    {
      return None;
    }
  }

  /** The sequential scenario of the writers' shared tests: write every record, then close.
      Since the writer holds no state, every call in the sequence returns nil. */
  method WritesAndClose(w: DiscardWriter, xs: seq<Record>) returns (errs: seq<Option<Error>>)
    ensures |errs| == |xs| + 1
    ensures forall i :: 0 <= i < |errs| ==> errs[i] == None
  {
    errs := [];
    var i := 0;
    while i < |xs|
      invariant i <= |xs|
      invariant |errs| == i
      invariant forall k :: 0 <= k < i ==> errs[k] == None
    {
      var e := w.Write(xs[i]);
      errs := errs + [e];
      i := i + 1;
    }
    var e := w.Close();
    errs := errs + [e];
  }
}
