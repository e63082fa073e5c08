/** The writer that logs every record as one line, `<TypeName>` followed by the labelled values,
    through a `log.Logger`. */
module Log {
  import opened Records
  import P = Peanut
  import opened BaseWriter
  import Decimal

  /** `log.Ldate` and `log.Ltime`, the flags of the default logger. */
  const Ldate: bv32 := 1
  const Ltime: bv32 := 2

  /** A `log.Logger`: where it writes, its prefix and flags, and the messages printed through it
      so far, in order. */
  class Logger {
    const toStderr: bool
    const prefix: string
    const flags: bv32
    var lines: seq<string>

    /** `log.New(out, prefix, flags)`; `toStderr` tells whether `out` is `os.Stderr`. */
    constructor (toStderr: bool, prefix: string, flags: bv32)
      ensures this.toStderr == toStderr && this.prefix == prefix && this.flags == flags
      ensures lines == []
    {
      this.toStderr := toStderr;
      this.prefix := prefix;
      this.flags := flags;
      lines := [];
    }

    /** The logger `initialise` installs: standard error, no prefix, date and time. */
    predicate IsDefault()
      reads this
    {
      toStderr && prefix == "" && flags == Ldate | Ltime
    }

    /** `Logger.Println(m)`: one more line holding `m`. */
    method Println(m: string)
      modifies this
      ensures lines == old(lines) + [m]
    {
      lines := lines + [m];
    }
  }

  // ---------------------------------------------------------------------------
  // Values

  /** What this file's `stringValues` does with the visited (field, value) pairs of a record: the
      renderings of the values when every field is a plain string or int, and otherwise the panic
      at the first one that is not: a failed type assertion for a named string or int type, and
      "Unknown type" for any other kind. */
  function Renderings(pairs: seq<(FieldDecl, Value)>): (out: Outcome<seq<string>>)
    ensures out.Returned? <==> forall i :: 0 <= i < |pairs| ==> P.Handled(pairs[i].0)
    ensures out.Returned? ==> |out.value| == |pairs|
    ensures out.Returned? ==> forall i :: 0 <= i < |out.value| ==> out.value[i] == Sprint(pairs[i].1)
    ensures out.Panicked? ==>
      exists k :: 0 <= k < |pairs|
        && !P.Handled(pairs[k].0)
        && (forall j :: 0 <= j < k ==> P.Handled(pairs[j].0))
        && out.message == P.UnhandledMessage(pairs[k].0, pairs[k].1)
  {
    var k := P.FirstUnhandled(pairs);
    if k < |pairs| then Panicked(P.UnhandledMessage(pairs[k].0, pairs[k].1))
    else Returned(seq(|pairs|, i requires 0 <= i < |pairs| => Sprint(pairs[i].1)))
  }

  /** A string field is logged as its text and an int field in base 10, which reads back as the
      same integer. */
  lemma RenderingsAreDecimal(pairs: seq<(FieldDecl, Value)>, i: nat)
    requires Renderings(pairs).Returned? && i < |pairs| && Fits(pairs[i].0.kind, pairs[i].1)
    ensures pairs[i].0.kind == String ==> Renderings(pairs).value[i] == pairs[i].1.s
    ensures pairs[i].0.kind == Int ==>
      Decimal.IsIntText(Renderings(pairs).value[i]) && Decimal.ParseInt(Renderings(pairs).value[i]) == pairs[i].1.i
  {
    var v := pairs[i].1;
    if v.IntVal? {
      Decimal.FormatIntRoundTrip(v.i);
    }
  }

  /** This file's `stringValues`: walks the visited fields of the record and renders them. */
  method StringValues(x: Record) returns (out: Outcome<seq<string>>)
    requires P.WellFormed(x)
    ensures out == Renderings(P.SchemaValues(x))
  {
    var pairs := P.ReflectStructValues(x);
    P.SchemaValuesAreFieldValues(x);
    out := RenderAll(pairs);
  }

  /** The callback of this file's `stringValues`: a string field as its text, an int field
      through `strconv.Itoa`, and a panic at the first field of a named type or of any other
      kind. */
  method RenderAll(pairs: seq<(FieldDecl, Value)>) returns (out: Outcome<seq<string>>)
    requires forall i :: 0 <= i < |pairs| ==> Fits(pairs[i].0.kind, pairs[i].1)
    ensures out == Renderings(pairs)
  {
    var vs: seq<string> := [];
    var i := 0;
    while i < |pairs|
      invariant i <= |pairs| && |vs| == i
      invariant forall j :: 0 <= j < i ==> P.Handled(pairs[j].0) && vs[j] == Sprint(pairs[j].1)
    {
      var f := pairs[i].0;
      var v := pairs[i].1;
      assert Fits(f.kind, v);
      if f.kind == String || f.kind == Int {
        // `v.(string)` or `v.(int)`: fails on a named type.
        if f.typeName != KindName(f.kind) {
          assert P.FirstUnhandled(pairs) == i;
          return Panicked(ConversionMessage(f.typeName, KindName(f.kind)));
        }
        vs := vs + [if f.kind == String then v.s else Decimal.FormatInt(v.i)];
      } else {
        assert P.FirstUnhandled(pairs) == i;
        return Panicked(P.UnknownTypeMessage(v));
      }
      i := i + 1;
    }
    assert P.FirstUnhandled(pairs) == |pairs|;
    assert vs == Renderings(pairs).value;
    return Returned(vs);
  }

  // ---------------------------------------------------------------------------
  // Lines

  /** The text one field adds to a log line: the label after a space and before a colon, then
      the value after a space unless the value is empty. */
  function Segment(h: string, v: string): string
  {
    " " + h + ":" + (if |v| > 0 then " " + v else "")
  }

  /** The segments of the fields, in field order. */
  function Segments(hs: seq<string>, vs: seq<string>): string
    requires |hs| == |vs|
    decreases |hs|
  {
    if hs == [] then "" else Segments(hs[..|hs| - 1], vs[..|vs| - 1]) + Segment(hs[|hs| - 1], vs[|vs| - 1])
  }

  /** The message `Write` logs for a type name, header list and value list. */
  function LogLine(name: string, hs: seq<string>, vs: seq<string>): string
    requires |hs| == |vs|
  {
    "<" + name + ">" + Segments(hs, vs)
  }

  /** One more field appends its segment. */
  lemma SegmentsStep(hs: seq<string>, vs: seq<string>, i: nat)
    requires |hs| == |vs| && i < |hs|
    ensures Segments(hs[..i + 1], vs[..i + 1]) == Segments(hs[..i], vs[..i]) + Segment(hs[i], vs[i])
  {
    assert hs[..i + 1][..i] == hs[..i];
    assert vs[..i + 1][..i] == vs[..i];
  }

  /** The message is a single line: it holds no newline unless the name, a label or a value does. */
  lemma {:induction false} LogLineIsOneLine(name: string, hs: seq<string>, vs: seq<string>)
    requires |hs| == |vs|
    requires '\n' !in name
    requires forall i :: 0 <= i < |hs| ==> '\n' !in hs[i] && '\n' !in vs[i]
    ensures '\n' !in LogLine(name, hs, vs)
  {
    SegmentsHaveNoNewline(hs, vs);
  }

  lemma {:induction false} SegmentsHaveNoNewline(hs: seq<string>, vs: seq<string>)
    requires |hs| == |vs|
    requires forall i :: 0 <= i < |hs| ==> '\n' !in hs[i] && '\n' !in vs[i]
    ensures '\n' !in Segments(hs, vs)
    decreases |hs|
  {
    if hs != [] {
      var n := |hs| - 1;
      SegmentsHaveNoNewline(hs[..n], vs[..n]);
      assert '\n' !in hs[n] && '\n' !in vs[n];
    }
  }

  /** Fields appear in field order: the line of the first `i` fields is a prefix of the line of
      all of them, followed directly by the segment of field `i`. */
  lemma {:induction false} LogLineFieldOrder(name: string, hs: seq<string>, vs: seq<string>, i: nat)
    requires |hs| == |vs| && i < |hs|
    ensures LogLine(name, hs[..i], vs[..i]) + Segment(hs[i], vs[i]) <= LogLine(name, hs, vs)
    decreases |hs| - i
  {
    SegmentsStep(hs, vs, i);
    if i + 1 < |hs| {
      LogLineFieldOrder(name, hs, vs, i + 1);
    } else {
      assert hs[..i + 1] == hs && vs[..i + 1] == vs;
    }
  }

  /** The loop of `LogWriter.Write` that builds the message: the type name in angle brackets,
      then ` label:` and, for a non-empty value, ` value` per field. */
  method FormatLine(name: string, hs: seq<string>, vs: seq<string>) returns (m: string)
    requires |hs| == |vs|
    ensures m == LogLine(name, hs, vs)
  {
    m := "<" + name + ">";
    var i := 0;
    while i < |vs|
      invariant i <= |vs|
      invariant m == "<" + name + ">" + Segments(hs[..i], vs[..i])
    {
      m := AppendField(m, hs[i], vs[i]);
      SegmentsStep(hs, vs, i);
      i := i + 1;
    }
    assert hs[..i] == hs && vs[..i] == vs;
  }

  /** One turn of that loop: ` label:`, then ` value` when the value is not empty. */
  method AppendField(m: string, h: string, v: string) returns (m': string)
    ensures m' == m + Segment(h, v)
  {
    m' := m + " " + h + ":";
    if |v| > 0 {
      m' := m' + " " + v;
    }
  }

  /** The message `LogWriter.Write` prints for a record, or the panic it runs into first. */
  function LineOf(x: Record): (out: Outcome<string>)
    requires P.WellFormed(x)
    ensures out.Panicked? <==> Renderings(P.SchemaValues(x)).Panicked?
    ensures out.Returned? ==>
      exists vs :: Renderings(P.SchemaValues(x)) == Returned(vs)
        && out.value == LogLine(P.TypeOf(x).name, Headers(P.TypeOf(x)), vs)
  {
    match Renderings(P.SchemaValues(x))
    case Panicked(m) => Panicked(m)
    case Returned(vs) => Returned(LogLine(P.TypeOf(x).name, Headers(P.TypeOf(x)), vs))
  }

  // ---------------------------------------------------------------------------
  // The writer

  class LogWriter {
    /** The embedded writer; `made` says whether Go's `w.writer` pointer has been set yet. It has
        the registration semantics of the schema cache. */
    const base: Base
    var made: bool
    var logger: Logger?
    var verbose: bool

    /** Before the first write nothing is registered. */
    ghost predicate Valid()
      reads this, base
    {
      base.Valid() && (!made ==> base.headersByType == map[])
    }

    /** `&LogWriter{Logger: logger, Verbose: verbose}`. */
    constructor (logger: Logger?, verbose: bool)
      ensures Valid() && !made && this.logger == logger && this.verbose == verbose
      ensures base.Registered() == {} && fresh(base)
    {
      base := new Base();
      made := false;
      this.logger := logger;
      this.verbose := verbose;
    }

    /** `LogWriter.initialise`: on the first call only, makes the writer and installs the default
        logger unless one was set; then registers the record's type. Always nil. */
    method Initialise(x: Record) returns (err: Option<Error>)
      requires Valid() && P.IsStruct(x)
      modifies this, base
      ensures Valid() && made && err == None && verbose == old(verbose)
      ensures base.Registered() == old(base.Registered()) + {P.TypeOf(x)}
      ensures old(made) || old(logger) != null ==> logger == old(logger)
      ensures !old(made) && old(logger) == null ==> fresh(logger) && logger.IsDefault() && logger.lines == []
    {
      if !made {
        made := true;
        if logger == null {
          logger := new Logger(true, "", Ldate | Ltime);
        }
      }
      var _, _ := base.Register(x);
      return None;
    }

    /** `LogWriter.Write`: registers the type, then prints exactly one line, the type name
        followed by the labelled values. A field that is neither a string nor an int panics before
        anything is printed, and so does a nil logger. */
    method Write(x: Record) returns (out: Outcome<Option<Error>>)
      requires Valid() && P.WellFormed(x)
      modifies this, base, logger
      ensures Valid() && made && verbose == old(verbose)
      ensures base.Registered() == old(base.Registered()) + {P.TypeOf(x)}
      ensures old(made) || old(logger) != null ==> logger == old(logger)
      ensures !old(made) && old(logger) == null ==> fresh(logger) && logger.IsDefault()
      ensures var before := old(if logger != null then logger.lines else []);
        Logged(x, before, out)
    {
      var _ := Initialise(x);
      out := Emit(x);
    }

    /** The part of `Write` after `initialise`: builds the message from the cached header list and
        prints it. */
    method Emit(x: Record) returns (out: Outcome<Option<Error>>)
      requires P.WellFormed(x) && P.TypeOf(x) in base.headersByType
      requires base.headersByType[P.TypeOf(x)] == Headers(P.TypeOf(x))
      modifies logger
      ensures var before := old(if logger != null then logger.lines else []);
        Logged(x, before, out)
    {
      var t := P.BaseType(x.typ).st;
      var h := base.headersByType[t];
      var line := Line(x, h);
      if line.Panicked? {
        return Panicked(line.message);
      }
      if logger == null {
        return Panicked(NilDereference);
      }
      logger.Println(line.value);
      return Returned(None);
    }

    /** What `Write` leaves in the logger, from the lines `before` it: one more line when every
        visited field is a string or an int, and nothing otherwise. */
    ghost predicate Logged(x: Record, before: seq<string>, out: Outcome<Option<Error>>)
      requires P.WellFormed(x)
      reads this, logger
    {
      match LineOf(x)
      case Panicked(m) => out == Panicked(m) && (logger != null ==> logger.lines == before)
      case Returned(line) =>
        if logger == null then out == Panicked(NilDereference)
        else out == Returned(None) && logger.lines == before + [line]
    }

    /** The message of `Write` for a record whose header list `h` has been looked up. */
    static method Line(x: Record, h: seq<string>) returns (out: Outcome<string>)
      requires P.WellFormed(x) && h == Headers(P.TypeOf(x))
      ensures out == LineOf(x)
    {
      var n := P.BaseType(x.typ).st.name;
      var v := StringValues(x);
      if v.Panicked? {
        return Panicked(v.message);
      }
      var m := FormatLine(n, h, v.value);
      return Returned(m);
    }

    /** `LogWriter.Close`: logs `Called LogWriter.Close` iff verbose, and returns nil. */
    method Close() returns (out: Outcome<Option<Error>>)
      modifies logger
      ensures !verbose ==> out == Returned(None) && (logger != null ==> logger.lines == old(logger.lines))
      ensures verbose && logger == null ==> out == Panicked(NilDereference)
      ensures verbose && logger != null ==>
        out == Returned(None) && logger.lines == old(logger.lines) + ["Called LogWriter.Close"]
    {
      if verbose {
        if logger == null {
          return Panicked(NilDereference);
        }
        logger.Println("Called LogWriter.Close");
      }
      return Returned(None);
    }

    /** `LogWriter.Cancel`: logs `Called LogWriter.Cancel` iff verbose, and returns nil. */
    method Cancel() returns (out: Outcome<Option<Error>>)
      modifies logger
      ensures !verbose ==> out == Returned(None) && (logger != null ==> logger.lines == old(logger.lines))
      ensures verbose && logger == null ==> out == Panicked(NilDereference)
      ensures verbose && logger != null ==>
        out == Returned(None) && logger.lines == old(logger.lines) + ["Called LogWriter.Cancel"]
    {
      if verbose {
        if logger == null {
          return Panicked(NilDereference);
        }
        logger.Println("Called LogWriter.Cancel");
      }
      return Returned(None);
    }
  }
}
