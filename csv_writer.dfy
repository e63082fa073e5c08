/** The writer that puts the records of each type into a CSV file of its own: the header row
    first, then one row of value texts per record. Output is staged in a temporary file and moved
    to `prefix + TypeName + suffix + ".csv"` by `Close`. The CSV encoding itself is a sink that
    receives the rows. */
module Csv {
  import opened Records
  import P = Peanut
  import opened BaseWriter
  import opened Files

  /** A `csvBuilder`: its final name, its temporary file and the rows handed to its encoder. */
  type CsvBuilder = Builder<seq<string>>

  class CsvWriter {
    const base: Base
    const prefix: string
    const suffix: string
    var builders: map<StructType, CsvBuilder>

    /** The final name of the file for a type. */
    function FinalName(t: StructType): string
    {
      prefix + t.name + suffix + ".csv"
    }

    /** The builder `register` stores for a new type: its final name, its temporary file and
        the header row. */
    function NewBuilder(t: StructType, temp: string): (b: CsvBuilder)
      ensures BuilderFits(t, b)
    {
      Builder(FinalName(t), temp, [Headers(t)])
    }

    /** Builders exist only for registered types, and each is kept as `BuilderFits` says. */
    ghost predicate Valid()
      reads this, base
    {
      base.Valid() && builders.Keys <= base.Registered() && BuildersFit()
    }

    /** Each builder is named after its type, starts with the header row of its type, and every
        row has one cell per header. */
    predicate BuildersFit()
      reads this
    {
      forall t {:trigger builders[t]} :: t in builders ==> BuilderFits(t, builders[t])
    }

    /** A builder as the writer keeps it for type `t`. */
    predicate BuilderFits(t: StructType, b: CsvBuilder)
    {
      && b.filename == FinalName(t)
      && |b.written| >= 1 && b.written[0] == Headers(t)
      && forall i :: 0 <= i < |b.written| ==> |b.written[i]| == |Headers(t)|
    }

    /** `NewCSVWriter(prefix, suffix)`. */
    constructor (prefix: string, suffix: string)
      ensures Valid() && this.prefix == prefix && this.suffix == suffix
      ensures builders == map[] && base.Registered() == {}
      ensures fresh(base)
    {
      base := new Base();
      this.prefix := prefix;
      this.suffix := suffix;
      builders := map[];
    }

    /** `CSVWriter.register`: registers the type; for a newly registered type only, stages a
        temporary file, stores a builder for it and hands it the header row. The temporary file's
        creation and the header row's write may fail; their outcomes are `created` and
        `headerErr`. */
    method Register(x: Record, fs: FileSystem, created: Result<string>, headerErr: Option<Error>) returns (err: Option<Error>)
      requires Valid() && P.IsStruct(x)
      requires created.Ok? ==> created.value !in fs.staged
      modifies this, base, fs
      ensures Valid()
      ensures base.Registered() == old(base.Registered()) + {P.TypeOf(x)}
      ensures P.TypeOf(x) in old(base.Registered()) ==>
        err == None && builders == old(builders) && fs.staged == old(fs.staged)
      ensures P.TypeOf(x) !in old(base.Registered()) ==> Staged(P.TypeOf(x), old(builders), old(fs.staged), fs.staged, created, headerErr, err)
      ensures fs.published == old(fs.published)
    {
      var t, isNew := base.Register(x);
      if !isNew {
        return None;
      }
      var h := base.headersByType[t];
      err := Stage(t, h, fs, created, headerErr);
    }

    /** What staging a new type `t` leaves behind: nothing when the temporary file cannot be
        created, and otherwise a builder whose first row is the header row. */
    ghost predicate Staged(t: StructType, bs: map<StructType, CsvBuilder>, staged: set<string>, staged': set<string>,
                           created: Result<string>, headerErr: Option<Error>, err: Option<Error>)
      reads this
    {
      match created
      case Err(e) => err == Some(e) && builders == bs && staged' == staged
      case Ok(temp) =>
        && err == headerErr
        && builders == bs[t := NewBuilder(t, temp)]
        && staged' == staged + {temp}
    }

    /** The new-type half of `CSVWriter.register`, given the type's cached header row `h`. */
    method Stage(t: StructType, h: seq<string>, fs: FileSystem, created: Result<string>, headerErr: Option<Error>)
      returns (err: Option<Error>)
      requires BuildersFit() && h == Headers(t)
      requires created.Ok? ==> created.value !in fs.staged
      modifies this, fs
      ensures BuildersFit()
      ensures Staged(t, old(builders), old(fs.staged), fs.staged, created, headerErr, err)
      ensures fs.published == old(fs.published)
    {
      var name := prefix + t.name + suffix + ".csv";
      var file := fs.CreateTemp(created);
      if file.Err? {
        return Some(file.error);
      }
      builders := builders[t := Builder(name, file.value, [])];
      builders := builders[t := builders[t].(written := builders[t].written + [h])];
      assert builders[t].written == [h];
      return headerErr;
    }

    /** `CSVWriter.Write`: registers the type, then hands one row, the texts of the record's
        values, to the type's builder. An error from `register` is returned before that; a type
        whose builder could not be staged has no builder, and the lookup of its encoder panics. */
    method Write(x: Record, fs: FileSystem, created: Result<string>, headerErr: Option<Error>, rowErr: Option<Error>)
      returns (out: Outcome<Option<Error>>)
      requires Valid() && P.WellFormed(x)
      requires created.Ok? ==> created.value !in fs.staged
      modifies this, base, fs
      ensures Valid()
      ensures base.Registered() == old(base.Registered()) + {P.TypeOf(x)}
      ensures fs.published == old(fs.published)
      ensures P.TypeOf(x) in old(base.Registered()) ==>
        fs.staged == old(fs.staged) && RowWritten(P.TypeOf(x), P.Shown(x), old(builders), builders, rowErr, out)
      ensures P.TypeOf(x) !in old(base.Registered()) ==>
        match created
        case Err(e) => out == Returned(Some(e)) && builders == old(builders) && fs.staged == old(fs.staged)
        case Ok(temp) =>
          && fs.staged == old(fs.staged) + {temp}
          && (headerErr.Some? ==> out == Returned(headerErr) && builders == old(builders)[P.TypeOf(x) := NewBuilder(P.TypeOf(x), temp)])
          && (headerErr.None? ==>
                RowWritten(P.TypeOf(x), P.Shown(x), old(builders)[P.TypeOf(x) := NewBuilder(P.TypeOf(x), temp)], builders, rowErr, out))
    {
      var err := Register(x, fs, created, headerErr);
      if err.Some? {
        return Returned(err);
      }
      out := WriteRow(x, rowErr);
    }

    /** What handing `row` to the builder of `t` does, from the builders `bs` before it: a type
        without a builder panics at the nil builder, and otherwise the row is appended to its
        rows and the encoder's outcome returned. */
    ghost predicate RowWritten(t: StructType, row: seq<string>, bs: map<StructType, CsvBuilder>,
                               bs': map<StructType, CsvBuilder>, rowErr: Option<Error>, out: Outcome<Option<Error>>)
    {
      if t !in bs then out == Panicked(NilDereference) && bs' == bs
      else out == Returned(rowErr) && bs' == bs[t := bs[t].(written := bs[t].written + [row])]
    }

    /** The part of `Write` after `register`: looks up the builder of the record's type and
        hands it the row. */
    method WriteRow(x: Record, rowErr: Option<Error>) returns (out: Outcome<Option<Error>>)
      requires BuildersFit() && P.WellFormed(x)
      modifies this
      ensures BuildersFit()
      ensures RowWritten(P.TypeOf(x), P.Shown(x), old(builders), builders, rowErr, out)
    {
      var t := P.BaseType(x.typ).st;
      if t !in builders {
        return Panicked(NilDereference);
      }
      var row := P.StringValues(x);
      AppendRow(t, row);
      return Returned(rowErr);
    }

    /** `cw.Write(row)` on the builder of `t`: the row is handed to the encoder. */
    method AppendRow(t: StructType, row: seq<string>)
      requires BuildersFit() && t in builders && |row| == |Headers(t)|
      modifies this
      ensures BuildersFit()
      ensures builders == old(builders)[t := old(builders)[t].(written := old(builders)[t].written + [row])]
    {
      builders := builders[t := builders[t].(written := builders[t].written + [row])];
    }

    /** `CSVWriter.Close`: closes every builder, in no fixed order and even after a failure, moving
        each temporary file to its final name only when every step before the rename succeeded.
        Returns nil iff every builder closed cleanly, and otherwise the error of some failing
        builder. */
    method Close(fs: FileSystem, steps: map<StructType, CloseSteps>) returns (err: Option<Error>)
      requires builders.Keys <= steps.Keys
      requires forall t :: t in builders ==> |steps[t].before| == 4
      requires RenamesStaged(builders, builders.Keys, steps, fs.staged)
      modifies fs
      ensures fs.published == old(fs.published) + Committed(builders, builders.Keys, steps)
      ensures fs.staged == old(fs.staged) - Moved(builders, builders.Keys, steps)
      ensures err.None? <==> forall t :: t in builders ==> Commits(steps[t])
      ensures err.Some? ==> exists t :: t in builders && err == CloseError(steps[t])
    {
      err := None;
      var todo := builders.Keys;
      while todo != {}
        invariant CloseProgress(builders, todo, steps, err, old(fs.published), old(fs.staged), fs.published, fs.staged)
        decreases |todo|
      {
        var t :| t in todo;
        ghost var published, staged := fs.published, fs.staged;
        var cerr := CloseBuilder(fs, builders[t], steps[t]);
        CloseProgressStep(builders, todo, t, steps, err, old(fs.published), old(fs.staged), published, staged, fs.published, fs.staged);
        if cerr.Some? {
          err := cerr;
        }
        todo := todo - {t};
      }
      assert builders.Keys - todo == builders.Keys;
    }

    /** One turn of the loop of `Close`. The steps before the rename are, in order, the CSV
        encoder's flush error, the buffer's flush, the chmod and the close; the fsync between the
        last two is not checked and does not appear. */
    static method CloseBuilder(fs: FileSystem, c: CsvBuilder, s: CloseSteps) returns (cerr: Option<Error>)
      requires |s.before| == 4
      requires Commits(s) ==> c.temp in fs.staged
      modifies fs
      ensures cerr == CloseError(s)
      ensures fs.published == old(fs.published) + (if Commits(s) then {c.filename} else {})
      ensures fs.staged == old(fs.staged) - (if Commits(s) then {c.temp} else {})
    {
      var csvError, flush, chmod, close := s.before[0], s.before[1], s.before[2], s.before[3];
      cerr := None;
      if csvError.Some? {
        cerr := csvError;
      }
      LastErrorSnoc([], csvError);
      assert [] + [csvError] == [csvError];
      if flush.Some? {
        cerr := flush;
      }
      LastErrorSnoc([csvError], flush);
      assert [csvError] + [flush] == [csvError, flush];
      if chmod.Some? {
        cerr := chmod;
      }
      LastErrorSnoc([csvError, flush], chmod);
      assert [csvError, flush] + [chmod] == [csvError, flush, chmod];
      if close.Some? {
        cerr := close;
      }
      LastErrorSnoc([csvError, flush, chmod], close);
      assert [csvError, flush, chmod] + [close] == s.before;
      assert cerr == StepsError(s.before);
      if cerr.Some? {
        return;
      }
      cerr := fs.Rename(c.temp, c.filename, s.rename);
    }

    /** `CSVWriter.Cancel`: closes and removes the temporary file of every builder, in no fixed
        order and even after a failure, and never publishes a final name. Returns nil iff every
        close and removal succeeded, and otherwise the error of some failing builder. */
    method Cancel(fs: FileSystem, steps: map<StructType, CancelSteps>) returns (err: Option<Error>)
      requires builders.Keys <= steps.Keys
      requires RemovesStaged(builders, builders.Keys, steps, fs.staged)
      modifies fs
      ensures fs.published == old(fs.published)
      ensures fs.staged == old(fs.staged) - Removed(builders, builders.Keys, steps)
      ensures err.None? <==> forall t :: t in builders ==> CancelError(steps[t]).None?
      ensures err.Some? ==> exists t :: t in builders && err == CancelError(steps[t])
    {
      err := None;
      var todo := builders.Keys;
      ghost var done: set<StructType> := {};
      while todo != {}
        invariant todo <= builders.Keys && done == builders.Keys - todo
        invariant fs.published == old(fs.published)
        invariant fs.staged == old(fs.staged) - Removed(builders, done, steps)
        invariant RemovesStaged(builders, todo, steps, fs.staged)
        invariant err.None? <==> forall t :: t in done ==> CancelError(steps[t]).None?
        invariant err.Some? ==> exists t :: t in done && err == CancelError(steps[t])
        decreases |todo|
      {
        var t :| t in todo;
        ghost var staged := fs.staged;
        err := DiscardBuilder(fs, builders[t], steps[t], err);
        CancelStep(builders, done, t, steps, old(fs.staged), staged, fs.staged);
        RemovesStagedStep(builders, todo, t, steps, staged, fs.staged);
        RemoveOne(builders.Keys, todo, t);
        todo := todo - {t};
        done := done + {t};
      }
    }

    /** One turn of the loop of `Cancel`: each failing step overwrites the error kept so far. */
    static method DiscardBuilder(fs: FileSystem, c: CsvBuilder, s: CancelSteps, rerr: Option<Error>) returns (rerr': Option<Error>)
      requires s.remove.None? ==> c.temp in fs.staged
      modifies fs
      ensures rerr' == if CancelError(s).Some? then CancelError(s) else rerr
      ensures fs.published == old(fs.published)
      ensures fs.staged == old(fs.staged) - (if s.remove.None? then {c.temp} else {})
    {
      rerr' := rerr;
      if s.close.Some? {
        rerr' := s.close;
      }
      var err := fs.Remove(c.temp, s.remove);
      if err.Some? {
        rerr' := err;
      }
    }
  }
}
