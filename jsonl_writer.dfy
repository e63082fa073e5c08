/** The writer that puts the records of each type into a JSON Lines file of its own, one object
    per record keyed by field label. Output is staged in a temporary file and moved to
    `prefix + TypeName + suffix + ".jsonl"` by `Close`. The JSON encoding itself is a sink that
    receives the objects. */
module Jsonl {
  import opened Records
  import P = Peanut
  import opened BaseWriter
  import opened Files

  /** A `jsonlBuilder`: its final name, its temporary file and the objects handed to its encoder. */
  type JsonlBuilder = Builder<map<string, Value>>

  // ---------------------------------------------------------------------------
  // Values

  /** What this file's `mapValues` does with a record: the label map of the visited values when
      every field is a plain string or int, and otherwise the panic at the first one that is not:
      a failed type assertion for a named string or int type, and "Unknown type" for any other
      kind. */
  function JsonObject(x: Record): (out: Outcome<map<string, Value>>)
    requires P.WellFormed(x)
    ensures out.Returned? <==> forall i :: 0 <= i < |P.SchemaValues(x)| ==> P.Handled(P.SchemaValues(x)[i].0)
    ensures out.Panicked? ==>
      exists k :: 0 <= k < |P.SchemaValues(x)|
        && !P.Handled(P.SchemaValues(x)[k].0)
        && (forall j :: 0 <= j < k ==> P.Handled(P.SchemaValues(x)[j].0))
        && out.message == P.UnhandledMessage(P.SchemaValues(x)[k].0, P.SchemaValues(x)[k].1)
  {
    var sv := P.SchemaValues(x);
    var k := P.FirstUnhandled(sv);
    if k < |sv| then Panicked(P.UnhandledMessage(sv[k].0, sv[k].1)) else Returned(P.LabelMap(P.LabelledValues(x)))
  }

  /** The object's keys are exactly the type's headers. */
  lemma JsonObjectKeys(x: Record)
    requires P.WellFormed(x) && JsonObject(x).Returned?
    ensures forall k :: k in JsonObject(x).value <==> k in Headers(P.TypeOf(x))
  {
    var lv := P.LabelledValues(x);
    P.LabelMapKeys(lv);
    assert forall i :: 0 <= i < |lv| ==> lv[i].0 == Headers(P.TypeOf(x))[i];
  }

  /** Every value of the object is a string or an int, the one some field carrying that label
      holds. */
  lemma JsonObjectValues(x: Record)
    requires P.WellFormed(x) && JsonObject(x).Returned?
    ensures forall k :: k in JsonObject(x).value ==> JsonObject(x).value[k].Str? || JsonObject(x).value[k].IntVal?
  {
    var lv := P.LabelledValues(x);
    var sv := P.SchemaValues(x);
    var obj := JsonObject(x).value;
    P.SchemaValuesAreFieldValues(x);
    P.LabelMapValues(lv);
    forall k | k in obj
      ensures obj[k].Str? || obj[k].IntVal?
    {
      var i :| 0 <= i < |lv| && lv[i] == (k, obj[k]);
      assert Fits(sv[i].0.kind, sv[i].1) && P.Handled(sv[i].0);
    }
  }

  /** This file's `mapValues`: walks the visited fields of the record, storing a string field's
      text or an int field's integer under its label, and panics at the first field of any other
      kind. */
  method MapValues(x: Record) returns (out: Outcome<map<string, Value>>)
    requires P.WellFormed(x)
    ensures out == JsonObject(x)
  {
    var pairs := P.ReflectStructValues(x);
    out := StoreValues(pairs, P.LabelledValues(x));
  }

  /** The callback loop of `mapValues` over the visited (field, value) pairs, whose labelled
      values are `want`: stores each under its label, or panics at the first field that is not a
      plain string or int. */
  method StoreValues(pairs: seq<(FieldDecl, Value)>, ghost want: seq<(string, Value)>) returns (out: Outcome<map<string, Value>>)
    requires |want| == |pairs|
    requires forall i :: 0 <= i < |pairs| ==> want[i] == (P.FirstTagValue(pairs[i].0.tag), pairs[i].1)
    ensures var k := P.FirstUnhandled(pairs);
      out == if k < |pairs| then Panicked(P.UnhandledMessage(pairs[k].0, pairs[k].1)) else Returned(P.LabelMap(want))
  {
    var m: map<string, Value> := map[];
    var i := 0;
    while i < |pairs|
      invariant i <= |pairs|
      invariant forall j :: 0 <= j < i ==> P.Handled(pairs[j].0)
      invariant m == P.LabelMap(want[..i])
    {
      var tag := P.FirstTagValue(pairs[i].0.tag);
      var f := pairs[i].0;
      var v := pairs[i].1;
      if f.kind == String || f.kind == Int {
        // The type assertion to `string` or `int` gives back the value the field holds, and
        // fails on a named type.
        if f.typeName != KindName(f.kind) {
          assert P.FirstUnhandled(pairs) == i;
          return Panicked(ConversionMessage(f.typeName, KindName(f.kind)));
        }
        m := m[tag := v];
      } else {
        assert P.FirstUnhandled(pairs) == i;
        return Panicked(P.UnknownTypeMessage(v));
      }
      P.LabelMapStep(want, i);
      i := i + 1;
    }
    assert P.FirstUnhandled(pairs) == |pairs|;
    assert want[..i] == want;
    return Returned(m);
  }

  // ---------------------------------------------------------------------------
  // The writer

  class JsonlWriter {
    const base: Base
    const prefix: string
    const suffix: string
    var builders: map<StructType, JsonlBuilder>

    /** The final name of the file for a type. */
    function FinalName(t: StructType): string
    {
      prefix + t.name + suffix + ".jsonl"
    }

    /** Builders exist only for registered types, and each is named after its type. */
    ghost predicate Valid()
      reads this, base
    {
      base.Valid() && builders.Keys <= base.Registered() && BuildersNamed()
    }

    /** Each builder carries the final name of its type. */
    predicate BuildersNamed()
      reads this
    {
      forall t {:trigger builders[t]} :: t in builders ==> builders[t].filename == FinalName(t)
    }

    /** `NewJSONLWriter(prefix, suffix)`. */
    constructor (prefix: string, suffix: string)
      ensures Valid() && this.prefix == prefix && this.suffix == suffix
      ensures builders == map[] && base.Registered() == {}
      ensures fresh(base)
    {
      base := new Base();
      this.prefix := prefix;
      this.suffix := suffix;
      builders := map[];
    }

    /** `JSONLWriter.register`: registers the type; for a newly registered type only, stages a
        temporary file and stores a builder for it. When the temporary file cannot be created
        (`created` is an error) the error is returned and no builder is stored. */
    method Register(x: Record, fs: FileSystem, created: Result<string>) returns (t: Option<StructType>, err: Option<Error>)
      requires Valid() && P.IsStruct(x)
      requires created.Ok? ==> created.value !in fs.staged
      modifies this, base, fs
      ensures Valid()
      ensures base.Registered() == old(base.Registered()) + {P.TypeOf(x)}
      ensures fs.published == old(fs.published)
      ensures P.TypeOf(x) in old(base.Registered()) ==>
        t == Some(P.TypeOf(x)) && err == None && builders == old(builders) && fs.staged == old(fs.staged)
      ensures P.TypeOf(x) !in old(base.Registered()) ==>
        match created
        case Err(e) => t == None && err == Some(e) && builders == old(builders) && fs.staged == old(fs.staged)
        case Ok(temp) =>
          && t == Some(P.TypeOf(x)) && err == None
          && builders == old(builders)[P.TypeOf(x) := Builder(FinalName(P.TypeOf(x)), temp, [])]
          && fs.staged == old(fs.staged) + {temp}
    {
      var rt, isNew := base.Register(x);
      if !isNew {
        return Some(rt), None;
      }
      t, err := Stage(rt, fs, created);
    }

    /** The new-type half of `JSONLWriter.register`. */
    method Stage(t: StructType, fs: FileSystem, created: Result<string>) returns (rt: Option<StructType>, err: Option<Error>)
      requires BuildersNamed()
      requires created.Ok? ==> created.value !in fs.staged
      modifies this, fs
      ensures BuildersNamed()
      ensures fs.published == old(fs.published)
      ensures match created
        case Err(e) => rt == None && err == Some(e) && builders == old(builders) && fs.staged == old(fs.staged)
        case Ok(temp) =>
          && rt == Some(t) && err == None
          && builders == old(builders)[t := Builder(FinalName(t), temp, [])]
          && fs.staged == old(fs.staged) + {temp}
    {
      var name := prefix + t.name + suffix + ".jsonl";
      var file := fs.CreateTemp(created);
      if file.Err? {
        return None, Some(file.error);
      }
      builders := builders[t := Builder(name, file.value, [])];
      return Some(t), None;
    }

    /** `JSONLWriter.Write`: registers the type, then hands the record's object to the type's
        encoder, whose outcome is `encodeErr`. An error from `register` is returned before that;
        a type whose builder could not be staged has no builder, and the lookup of its encoder
        panics; a field of another kind than string or int panics in `mapValues`. */
    method Write(x: Record, fs: FileSystem, created: Result<string>, encodeErr: Option<Error>)
      returns (out: Outcome<Option<Error>>)
      requires Valid() && P.WellFormed(x)
      requires created.Ok? ==> created.value !in fs.staged
      modifies this, base, fs
      ensures Valid()
      ensures base.Registered() == old(base.Registered()) + {P.TypeOf(x)}
      ensures fs.published == old(fs.published)
      ensures P.TypeOf(x) in old(base.Registered()) ==>
        fs.staged == old(fs.staged) && Encoded(x, old(builders), builders, encodeErr, out)
      ensures P.TypeOf(x) !in old(base.Registered()) ==>
        match created
        case Err(e) => out == Returned(Some(e)) && builders == old(builders) && fs.staged == old(fs.staged)
        case Ok(temp) =>
          && fs.staged == old(fs.staged) + {temp}
          && Encoded(x, old(builders)[P.TypeOf(x) := Builder(FinalName(P.TypeOf(x)), temp, [])], builders, encodeErr, out)
    {
      var t, err := Register(x, fs, created);
      if err.Some? {
        return Returned(err);
      }
      out := Encode(x, encodeErr);
    }

    /** What handing the record's object to the builder of its type does, from the builders `bs`
        before it: a type without a builder panics at the nil builder, a field of an unhandled
        kind panics, and otherwise the object is appended and the encoder's outcome returned. */
    ghost predicate Encoded(x: Record, bs: map<StructType, JsonlBuilder>, bs': map<StructType, JsonlBuilder>,
                            encodeErr: Option<Error>, out: Outcome<Option<Error>>)
      requires P.WellFormed(x)
    {
      var t := P.TypeOf(x);
      if t !in bs then out == Panicked(NilDereference) && bs' == bs
      else match JsonObject(x)
        case Panicked(m) => out == Panicked(m) && bs' == bs
        case Returned(obj) => out == Returned(encodeErr) && bs' == bs[t := bs[t].(written := bs[t].written + [obj])]
    }

    /** The part of `Write` after `register`. */
    method Encode(x: Record, encodeErr: Option<Error>) returns (out: Outcome<Option<Error>>)
      requires BuildersNamed() && P.WellFormed(x)
      modifies this
      ensures BuildersNamed()
      ensures Encoded(x, old(builders), builders, encodeErr, out)
    {
      var t := P.BaseType(x.typ).st;
      if t !in builders {
        return Panicked(NilDereference);
      }
      var obj := MapValues(x);
      if obj.Panicked? {
        return Panicked(obj.message);
      }
      builders := builders[t := builders[t].(written := builders[t].written + [obj.value])];
      return Returned(encodeErr);
    }

    /** `JSONLWriter.Close`: closes every builder, in no fixed order and even after a failure,
        moving each temporary file to its final name only when every step before the rename
        succeeded. Returns nil iff every builder closed cleanly, and otherwise the error of some
        failing builder. */
    method Close(fs: FileSystem, steps: map<StructType, CloseSteps>) returns (err: Option<Error>)
      requires builders.Keys <= steps.Keys
      requires forall t :: t in builders ==> |steps[t].before| == 3
      requires RenamesStaged(builders, builders.Keys, steps, fs.staged)
      modifies fs
      ensures fs.published == old(fs.published) + Committed(builders, builders.Keys, steps)
      ensures fs.staged == old(fs.staged) - Moved(builders, builders.Keys, steps)
      ensures err.None? <==> forall t :: t in builders ==> Commits(steps[t])
      ensures err.Some? ==> exists t :: t in builders && err == CloseError(steps[t])
    {
      err := None;
      var todo := builders.Keys;
      while todo != {}
        invariant CloseProgress(builders, todo, steps, err, old(fs.published), old(fs.staged), fs.published, fs.staged)
        decreases |todo|
      {
        var t :| t in todo;
        ghost var published, staged := fs.published, fs.staged;
        var cerr := CloseBuilder(fs, builders[t], steps[t]);
        CloseProgressStep(builders, todo, t, steps, err, old(fs.published), old(fs.staged), published, staged, fs.published, fs.staged);
        if cerr.Some? {
          err := cerr;
        }
        todo := todo - {t};
      }
      assert builders.Keys - todo == builders.Keys;
    }

    /** One turn of the loop of `Close`. The steps before the rename are, in order, the buffer's
        flush, the chmod and the close; the fsync between the last two is not checked and does
        not appear. */
    static method CloseBuilder(fs: FileSystem, c: JsonlBuilder, s: CloseSteps) returns (cerr: Option<Error>)
      requires |s.before| == 3
      requires Commits(s) ==> c.temp in fs.staged
      modifies fs
      ensures cerr == CloseError(s)
      ensures fs.published == old(fs.published) + (if Commits(s) then {c.filename} else {})
      ensures fs.staged == old(fs.staged) - (if Commits(s) then {c.temp} else {})
    {
      var flush, chmod, close := s.before[0], s.before[1], s.before[2];
      cerr := None;
      if flush.Some? {
        cerr := flush;
      }
      LastErrorSnoc([], flush);
      assert [] + [flush] == [flush];
      if chmod.Some? {
        cerr := chmod;
      }
      LastErrorSnoc([flush], chmod);
      assert [flush] + [chmod] == [flush, chmod];
      if close.Some? {
        cerr := close;
      }
      LastErrorSnoc([flush, chmod], close);
      assert [flush, chmod] + [close] == s.before;
      assert cerr == StepsError(s.before);
      if cerr.Some? {
        return;
      }
      cerr := fs.Rename(c.temp, c.filename, s.rename);
    }

    /** `JSONLWriter.Cancel`: closes and removes the temporary file of every builder, in no fixed
        order and even after a failure, and never publishes a final name. Returns nil iff every
        close and removal succeeded, and otherwise the error of some failing builder. */
    method Cancel(fs: FileSystem, steps: map<StructType, CancelSteps>) returns (err: Option<Error>)
      requires builders.Keys <= steps.Keys
      requires RemovesStaged(builders, builders.Keys, steps, fs.staged)
      modifies fs
      ensures fs.published == old(fs.published)
      ensures fs.staged == old(fs.staged) - Removed(builders, builders.Keys, steps)
      ensures err.None? <==> forall t :: t in builders ==> CancelError(steps[t]).None?
      ensures err.Some? ==> exists t :: t in builders && err == CancelError(steps[t])
    {
      err := None;
      var todo := builders.Keys;
      ghost var done: set<StructType> := {};
      while todo != {}
        invariant todo <= builders.Keys && done == builders.Keys - todo
        invariant fs.published == old(fs.published)
        invariant fs.staged == old(fs.staged) - Removed(builders, done, steps)
        invariant RemovesStaged(builders, todo, steps, fs.staged)
        invariant err.None? <==> forall t :: t in done ==> CancelError(steps[t]).None?
        invariant err.Some? ==> exists t :: t in done && err == CancelError(steps[t])
        decreases |todo|
      {
        var t :| t in todo;
        ghost var staged := fs.staged;
        err := DiscardBuilder(fs, builders[t], steps[t], err);
        CancelStep(builders, done, t, steps, old(fs.staged), staged, fs.staged);
        RemovesStagedStep(builders, todo, t, steps, staged, fs.staged);
        RemoveOne(builders.Keys, todo, t);
        todo := todo - {t};
        done := done + {t};
      }
    }

    /** One turn of the loop of `Cancel`: each failing step overwrites the error kept so far. */
    static method DiscardBuilder(fs: FileSystem, c: JsonlBuilder, s: CancelSteps, rerr: Option<Error>) returns (rerr': Option<Error>)
      requires s.remove.None? ==> c.temp in fs.staged
      modifies fs
      ensures rerr' == if CancelError(s).Some? then CancelError(s) else rerr
      ensures fs.published == old(fs.published)
      ensures fs.staged == old(fs.staged) - (if s.remove.None? then {c.temp} else {})
    {
      rerr' := rerr;
      if s.close.Some? {
        rerr' := s.close;
      }
      var err := fs.Remove(c.temp, s.remove);
      if err.Some? {
        rerr' := err;
      }
    }
  }
}
