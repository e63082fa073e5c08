/** The fan-out writer: one logical call forwarded to every wrapped writer. The wrapped
    writers are interface values whose behaviour is not part of this model, so each method takes
    the result every wrapped writer would return, and reports which writers it called. */
module MultiWriter {
  import opened Records

  class MultiWriter<W> {
    const writers: seq<W>

    /** `MultiWriter(writers...)`. */
    constructor (writers: seq<W>)
      ensures this.writers == writers
    {
      this.writers := writers;
    }

    /** `multiWriter.Write`: calls the wrapped writers in order and returns the first error at
        once, without calling the writers after the failing one; nil iff every writer was called
        and each returned nil. */
    method Write(x: Record, results: seq<Option<Error>>) returns (err: Option<Error>, called: seq<W>)
      requires |results| == |writers|
      ensures err.None? <==> forall i :: 0 <= i < |results| ==> results[i].None?
      ensures err.None? ==> called == writers
      ensures err.Some? ==>
        exists k :: 0 <= k < |results|
          && err == results[k]
          && (forall j :: 0 <= j < k ==> results[j].None?)
          && called == writers[..k + 1]
    {
      called := [];
      var i := 0;
      while i < |writers|
        invariant i <= |writers|
        invariant called == writers[..i]
        invariant forall j :: 0 <= j < i ==> results[j].None?
      {
        var w := writers[i];
        called := called + [w];
        var e := results[i];
        if e.Some? {
          return e, called;
        }
        i := i + 1;
      }
      return None, called;
    }

    /** `multiWriter.Close`: calls every wrapped writer, even after a failure, and returns the
        last non-nil error, or nil if none failed. */
    method Close(results: seq<Option<Error>>) returns (err: Option<Error>, called: seq<W>)
      requires |results| == |writers|
      ensures called == writers
      ensures err.None? <==> forall i :: 0 <= i < |results| ==> results[i].None?
      ensures err.Some? ==>
        exists k :: 0 <= k < |results| && err == results[k] && forall j :: k < j < |results| ==> results[j].None?
    {
      err, called := LastOfAll(results);
      LastErrorSpec(results);
    }

    /** `multiWriter.Cancel`: the same collection as `Close`, over the writers' `Cancel` results. */
    method Cancel(results: seq<Option<Error>>) returns (err: Option<Error>, called: seq<W>)
      requires |results| == |writers|
      ensures called == writers
      ensures err.None? <==> forall i :: 0 <= i < |results| ==> results[i].None?
      ensures err.Some? ==>
        exists k :: 0 <= k < |results| && err == results[k] && forall j :: k < j < |results| ==> results[j].None?
    {
      err, called := LastOfAll(results);
      LastErrorSpec(results);
    }

    /** The loop `Close` and `Cancel` share: call every writer, keep the last non-nil error. */
    method LastOfAll(results: seq<Option<Error>>) returns (xerr: Option<Error>, called: seq<W>)
      requires |results| == |writers|
      ensures called == writers
      ensures xerr == LastError(results)
    {
      xerr := None;
      called := [];
      var i := 0;
      while i < |writers|
        invariant i <= |writers|
        invariant called == writers[..i]
        invariant xerr == LastError(results[..i])
      {
        called := called + [writers[i]];
        var e := results[i];
        assert results[..i + 1][..i] == results[..i];
        if e.Some? {
          xerr := e;
        }
        i := i + 1;
      }
      assert results[..i] == results;
      LastErrorSpec(results);
    }
  }
}
