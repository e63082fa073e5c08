/** The writer for tests of code that uses the package: it counts calls and captures headers and
    rows in memory, keyed by type name. */
module Mock {
  import opened Records
  import P = Peanut
  import opened BaseWriter
  import Decimal

  /** The type the switch of this file's `stringValuesAsMap` asserts for a supported kind: the
      kind's own type, except that both float kinds are asserted to be `float64`. */
  function AssertedType(k: Kind): string
  {
    if k == Float32 || k == Float64 then "float64" else KindName(k)
  }

  /** One case of this file's `stringValuesAsMap`: the rendering of field `f` holding `v`, or the
      panic its switch runs into. A kind outside the switch panics with "Unknown type"; a case
      whose type assertion fails (a `float32` in the float case, a field of a named type such as
      `type UserID int` in any case) panics with the interface conversion message. */
  function MockRender(f: FieldDecl, v: Value): Outcome<string>
  {
    var k := f.kind;
    if !P.SupportedKind(k) then Panicked("Unknown type: " + Sprint(v))
    else if f.typeName != AssertedType(k) then Panicked(ConversionMessage(f.typeName, AssertedType(k)))
    else if k == String && v.Str? then Returned(v.s)
    else if IsSignedKind(k) && v.IntVal? then Returned(Decimal.FormatInt(v.i))
    else if IsUnsignedKind(k) && v.UintVal? then Returned(Decimal.FormatNat(v.n))
    else if k == Bool && v.BoolVal? then Returned(if v.b then "true" else "false")
    else if k == Float64 && v.Float64Val? then Returned(v.shown64)
    else Panicked(ConversionMessage(f.typeName, AssertedType(k)))
  }

  /** The mock rendering succeeds exactly on the supported kinds other than `float32` whose
      declared type is the kind's own, and there it is the `%v` rendering; integers come out in
      base 10 and read back unchanged. A `float32` field, and a field of a named type, fail the
      type assertion; any other kind panics with "Unknown type". */
  lemma MockRenderIsSprint(f: FieldDecl, v: Value)
    requires Fits(f.kind, v)
    ensures MockRender(f, v).Returned? <==> P.SupportedKind(f.kind) && f.kind != Float32 && f.typeName == KindName(f.kind)
    ensures MockRender(f, v).Returned? ==> MockRender(f, v).value == Sprint(v)
    ensures IsSignedKind(f.kind) && MockRender(f, v).Returned? ==>
      Decimal.IsIntText(MockRender(f, v).value) && Decimal.ParseInt(MockRender(f, v).value) == v.i
    ensures f.kind == Float32 && f.typeName == "float32" ==>
      MockRender(f, v) == Panicked("interface conversion: interface {} is float32, not float64")
    ensures P.SupportedKind(f.kind) && f.typeName != AssertedType(f.kind) ==>
      MockRender(f, v) == Panicked(ConversionMessage(f.typeName, AssertedType(f.kind)))
    ensures !P.SupportedKind(f.kind) ==> MockRender(f, v) == Panicked("Unknown type: " + Sprint(v))
  {
    var k := f.kind;
    if IsSignedKind(k) {
      Decimal.FormatIntRoundTrip(v.i);
    } else if IsUnsignedKind(k) {
      assert k == Uintptr || f.typeName != AssertedType(k) || MockRender(f, v) == Returned(Decimal.FormatNat(v.n));
    } else if k == Float32 || k == Float64 || k == String || k == Bool {
    } else {
      assert !P.SupportedKind(k);
    }
  }

  /** The message of the first field whose rendering panics, if any. */
  function FirstPanic(pairs: seq<(FieldDecl, Value)>): Option<string>
    decreases |pairs|
  {
    if pairs == [] then None
    else
      var last := pairs[|pairs| - 1];
      match FirstPanic(pairs[..|pairs| - 1])
      case Some(m) => Some(m)
      case None => if MockRender(last.0, last.1).Panicked? then Some(MockRender(last.0, last.1).message) else None
  }

  /** `FirstPanic` is nil iff every field renders, and otherwise the panic of the first field
      that does not. */
  lemma {:induction false} FirstPanicSpec(pairs: seq<(FieldDecl, Value)>)
    ensures FirstPanic(pairs).None? <==>
      forall i :: 0 <= i < |pairs| ==> MockRender(pairs[i].0, pairs[i].1).Returned?
    ensures FirstPanic(pairs).Some? ==>
      exists k :: 0 <= k < |pairs|
        && MockRender(pairs[k].0, pairs[k].1) == Panicked(FirstPanic(pairs).value)
        && forall j :: 0 <= j < k ==> MockRender(pairs[j].0, pairs[j].1).Returned?
    decreases |pairs|
  {
    if pairs != [] {
      var init := pairs[..|pairs| - 1];
      assert forall i :: 0 <= i < |init| ==> init[i] == pairs[i];
      FirstPanicSpec(init);
      if FirstPanic(init).Some? {
        var k :| 0 <= k < |init|
          && MockRender(init[k].0, init[k].1) == Panicked(FirstPanic(init).value)
          && forall j :: 0 <= j < k ==> MockRender(init[j].0, init[j].1).Returned?;
        assert MockRender(pairs[k].0, pairs[k].1) == Panicked(FirstPanic(pairs).value);
      }
    }
  }

  /** One more field: the earlier panic stands, or else this field's panic, if any. */
  lemma FirstPanicStep(pairs: seq<(FieldDecl, Value)>, i: nat)
    requires i < |pairs|
    ensures FirstPanic(pairs[..i + 1]) ==
      if FirstPanic(pairs[..i]).Some? then FirstPanic(pairs[..i])
      else if MockRender(pairs[i].0, pairs[i].1).Panicked? then Some(MockRender(pairs[i].0, pairs[i].1).message)
      else None
  {
    assert pairs[..i + 1][..i] == pairs[..i];
  }

  /** A panic in a prefix is the panic of the whole sequence. */
  lemma {:induction false} FirstPanicPrefix(pairs: seq<(FieldDecl, Value)>, n: nat)
    requires n <= |pairs| && FirstPanic(pairs[..n]).Some?
    ensures FirstPanic(pairs) == FirstPanic(pairs[..n])
    decreases |pairs| - n
  {
    if n < |pairs| {
      FirstPanicStep(pairs, n);
      FirstPanicPrefix(pairs, n + 1);
    } else {
      assert pairs[..n] == pairs;
    }
  }

  /** What this file's `stringValuesAsMap` does with a record: the panic of the first field it
      cannot render, or else the label map of the `%v` renderings. */
  function MockRow(x: Record): Outcome<map<string, string>>
    requires P.WellFormed(x)
  {
    match FirstPanic(P.SchemaValues(x))
    case Some(m) => Panicked(m)
    case None => Returned(P.LabelMap(P.Rendered(P.LabelledValues(x))))
  }

  /** This file's `stringValuesAsMap`: renders the visited fields in order into a map keyed by
      label, or panics at the first field of a kind it does not handle. */
  method StringValuesAsMap(x: Record) returns (out: Outcome<map<string, string>>)
    requires P.WellFormed(x)
    ensures out == MockRow(x)
  {
    var pairs := P.ReflectStructValues(x);
    P.SchemaValuesAreFieldValues(x);
    ghost var want := P.Rendered(P.LabelledValues(x));
    var m: map<string, string> := map[];
    var i := 0;
    while i < |pairs|
      invariant i <= |pairs|
      invariant FirstPanic(pairs[..i]) == None
      invariant m == P.LabelMap(want[..i])
    {
      var f := pairs[i].0;
      var v := pairs[i].1;
      var r := MockRender(f, v);
      FirstPanicStep(pairs, i);
      if r.Panicked? {
        FirstPanicPrefix(pairs, i + 1);
        return Panicked(r.message);
      }
      MockRenderIsSprint(f, v);
      P.LabelMapStep(want, i);
      m := m[P.FirstTagValue(f.tag) := r.value];
      i := i + 1;
    }
    assert pairs[..i] == pairs;
    assert want[..i] == want;
    return Returned(m);
  }

  class MockWriter {
    /** The embedded base; `made` says whether Go's `w.base` pointer has been set yet. Before
        that the base is the empty one the first `Write` allocates. */
    const base: Base
    var made: bool
    var headers: map<string, seq<string>>
    var data: map<string, seq<map<string, string>>>
    var disableDataCapture: map<string, bool>
    var calledWrite: nat
    var calledClose: nat
    var calledCancel: nat
    /** For each captured type name, the registered type whose headers are shown under it. */
    ghost var shownType: map<string, StructType>

    /** Before the first write the base is empty; after it, each captured header list is that
        of a registered type of that name. */
    ghost predicate Valid()
      reads this, base
    {
      && base.Valid()
      && (!made ==> base.headersByType == map[])
      && (made ==>
            && headers.Keys == shownType.Keys
            && forall n :: n in shownType ==>
                 shownType[n] in base.headersByType && shownType[n].name == n && headers[n] == Headers(shownType[n]))
    }

    /** The types registered so far. */
    ghost function Registered(): set<StructType>
      reads this, base
    {
      base.headersByType.Keys
    }

    /** Whether capture is switched off for a type name; a missing entry reads as false. */
    predicate CaptureDisabled(n: string)
      reads this
    {
      n in disableDataCapture && disableDataCapture[n]
    }

    /** `&MockWriter{}`: no base yet, nothing captured, no calls counted. */
    constructor ()
      ensures Valid() && !made && Registered() == {}
      ensures headers == map[] && data == map[] && disableDataCapture == map[]
      ensures calledWrite == 0 && calledClose == 0 && calledCancel == 0
      ensures fresh(base)
    {
      base := new Base();
      made := false;
      headers := map[];
      data := map[];
      disableDataCapture := map[];
      calledWrite := 0;
      calledClose := 0;
      calledCancel := 0;
      shownType := map[];
    }

    /** The lazy initialisation at the head of `MockWriter.register`: on the first call only,
        the base and fresh capture maps are made. */
    method MakeOnce()
      requires Valid()
      modifies this
      ensures Valid() && made
      ensures headers == (if old(made) then old(headers) else map[])
      ensures data == (if old(made) then old(data) else map[])
      ensures calledWrite == old(calledWrite) && calledClose == old(calledClose) && calledCancel == old(calledCancel)
      ensures disableDataCapture == old(disableDataCapture)
    {
      if !made {
        made := true;
        headers := map[];
        data := map[];
        shownType := map[];
      }
    }

    /** `MockWriter.register`: on the first call makes the base and empty capture maps; records
        the header list under the type name only when the type is newly registered. */
    method Register(x: Record) returns (t: StructType)
      requires Valid() && P.IsStruct(x)
      modifies this, base
      ensures Valid() && made
      ensures t == P.TypeOf(x)
      ensures Registered() == old(Registered()) + {t}
      ensures var hs := if old(made) then old(headers) else map[];
        headers == if t in old(Registered()) then hs else hs[t.name := Headers(t)]
      ensures data == (if old(made) then old(data) else map[])
      ensures calledWrite == old(calledWrite) && calledClose == old(calledClose) && calledCancel == old(calledCancel)
      ensures disableDataCapture == old(disableDataCapture)
    {
      MakeOnce();
      var isNew;
      t, isNew := base.Register(x);
      if isNew {
        ShowHeaders(t);
      }
    }

    /** The last step of `MockWriter.register` for a newly registered type: its header list is
        captured under its name. */
    method ShowHeaders(t: StructType)
      requires Valid() && made && t in base.headersByType
      modifies this
      ensures Valid() && made
      ensures headers == old(headers)[t.name := Headers(t)]
      ensures data == old(data) && disableDataCapture == old(disableDataCapture)
      ensures calledWrite == old(calledWrite) && calledClose == old(calledClose) && calledCancel == old(calledCancel)
    {
      headers := headers[t.name := base.headersByType[t]];
      shownType := shownType[t.name := t];
    }

    /** `MockWriter.Write`: counts the call, registers the type, then captures one row under the
        type name unless capture is disabled for it. The row is this file's `stringValuesAsMap`,
        and a panic there happens after the count and the registration. */
    method Write(x: Record) returns (out: Outcome<Option<Error>>)
      requires Valid() && P.WellFormed(x)
      modifies this, base
      ensures Valid() && made
      ensures calledWrite == old(calledWrite) + 1
      ensures calledClose == old(calledClose) && calledCancel == old(calledCancel)
      ensures disableDataCapture == old(disableDataCapture)
      ensures Registered() == old(Registered()) + {P.TypeOf(x)}
      ensures var hs := if old(made) then old(headers) else map[];
        headers == if P.TypeOf(x) in old(Registered()) then hs else hs[P.TypeOf(x).name := Headers(P.TypeOf(x))]
      ensures var ds := if old(made) then old(data) else map[];
        Captured(P.TypeOf(x).name, x, ds, data, out)
    {
      calledWrite := calledWrite + 1;
      var t := Register(x);
      out := Capture(x);
    }

    /** What the capture step of `MockWriter.Write` leaves behind, from the rows `ds` before it:
        nothing when capture is disabled for the name `n` or the row panics, and otherwise the
        rows under `n` with the new row appended. */
    ghost predicate Captured(n: string, x: Record, ds: map<string, seq<map<string, string>>>,
                             data': map<string, seq<map<string, string>>>, out: Outcome<Option<Error>>)
      requires P.WellFormed(x)
      reads this
    {
      if CaptureDisabled(n) then out == Returned(None) && data' == ds
      else match MockRow(x)
        case Panicked(m) => out == Panicked(m) && data' == ds
        case Returned(row) =>
          out == Returned(None) && data' == ds[n := (if n in ds then ds[n] else []) + [row]]
    }

    /** The capture step of `MockWriter.Write`. */
    method Capture(x: Record) returns (out: Outcome<Option<Error>>)
      requires Valid() && made && P.WellFormed(x)
      modifies this
      ensures Valid() && made
      ensures Captured(P.TypeOf(x).name, x, old(data), data, out)
      ensures headers == old(headers) && disableDataCapture == old(disableDataCapture)
      ensures calledWrite == old(calledWrite) && calledClose == old(calledClose) && calledCancel == old(calledCancel)
    {
      var n := P.BaseType(x.typ).st.name;
      if n in disableDataCapture && disableDataCapture[n] {
        return Returned(None);
      }
      var rows := if n in data then data[n] else [];
      var row := StringValuesAsMap(x);
      if row.Panicked? {
        return Panicked(row.message);
      }
      data := data[n := rows + [row.value]];
      return Returned(None);
    }

    /** `MockWriter.Close`: counts the call and returns nil. */
    method Close() returns (err: Option<Error>)
      requires Valid()
      modifies this
      ensures Valid() && err == None
      ensures calledClose == old(calledClose) + 1
      ensures calledWrite == old(calledWrite) && calledCancel == old(calledCancel)
      ensures made == old(made) && headers == old(headers) && data == old(data)
      ensures disableDataCapture == old(disableDataCapture)
    {
      calledClose := calledClose + 1;
      return None;
    }

    /** `MockWriter.Cancel`: counts the call and returns nil. */
    method Cancel() returns (err: Option<Error>)
      requires Valid()
      modifies this
      ensures Valid() && err == None
      ensures calledCancel == old(calledCancel) + 1
      ensures calledWrite == old(calledWrite) && calledClose == old(calledClose)
      ensures made == old(made) && headers == old(headers) && data == old(data)
      ensures disableDataCapture == old(disableDataCapture)
    {
      calledCancel := calledCancel + 1;
      return None;
    }
  }

  /** A fresh writer can be used at once, and still after `Close` and `Cancel`: a close, a
      cancel and then a write leave each counter at one. */
  method CountCalls(x: Record) returns (calledWrite: nat, calledClose: nat, calledCancel: nat)
    requires P.WellFormed(x)
    ensures calledWrite == 1 && calledClose == 1 && calledCancel == 1
  {
    var w := new MockWriter();
    var _ := w.Close();
    var _ := w.Cancel();
    var _ := w.Write(x);
    return w.calledWrite, w.calledClose, w.calledCancel;
  }
}
