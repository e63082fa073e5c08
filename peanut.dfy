/** Field and tag schema derivation and value extraction shared by every writer:
    which struct fields a record contributes, in which order, under which label, and whether
    their kinds are supported. */
module Peanut {
  import opened Records
  import Decimal

  // ---------------------------------------------------------------------------
  // Tags

  /** `strings.Split(s, string(sep))`: the pieces between separators, in order; a text without
      the separator is one piece, and the empty text is one empty piece. */
  function Split(s: string, sep: char): (parts: seq<string>)
    ensures |parts| >= 1
    decreases |s|
  {
    if s == [] then [""]
    else
      var rest := Split(s[1..], sep);
      if s[0] == sep then [""] + rest else [[s[0]] + rest[0]] + rest[1..]
  }

  /** `strings.Join(parts, string(sep))`. */
  function Join(parts: seq<string>, sep: char): string
    requires |parts| >= 1
    decreases |parts|
  {
    if |parts| == 1 then parts[0] else parts[0] + [sep] + Join(parts[1..], sep)
  }

  /** Splitting loses nothing: joining the pieces again gives the text back, and no piece
      contains the separator. */
  lemma {:induction false} SplitJoin(s: string, sep: char)
    ensures Join(Split(s, sep), sep) == s
    ensures forall i :: 0 <= i < |Split(s, sep)| ==> sep !in Split(s, sep)[i]
    decreases |s|
  {
    if s != [] {
      var rest := Split(s[1..], sep);
      SplitJoin(s[1..], sep);
      if s[0] == sep {
        assert ([""] + rest)[1..] == rest;
      } else {
        var parts := [[s[0]] + rest[0]] + rest[1..];
        if |rest| > 1 {
          assert parts[1..] == rest[1..];
          assert Join(rest, sep) == rest[0] + [sep] + Join(rest[1..], sep);
        }
        forall i | 0 <= i < |parts| ensures sep !in parts[i] {
          if i > 0 { assert parts[i] == rest[i]; }
        }
      }
    }
  }

  /** Where the separator first occurs, the first piece is the text before it and the other
      pieces are those of the text after it. */
  lemma {:induction false} SplitAtFirst(s: string, sep: char, k: nat)
    requires k < |s| && s[k] == sep && sep !in s[..k]
    ensures Split(s, sep) == [s[..k]] + Split(s[k + 1..], sep)
    decreases k
  {
    if k > 0 {
      assert s[1..][..k - 1] == s[1..k];
      assert s[1..][k..] == s[k + 1..];
      SplitAtFirst(s[1..], sep, k - 1);
      assert [s[0]] + s[1..k] == s[..k];
    } else {
      assert s[1..] == s[k + 1..];
    }
  }

  /** A text without the separator is a single piece. */
  lemma {:induction false} SplitWithoutSeparator(s: string, sep: char)
    requires sep !in s
    ensures Split(s, sep) == [s]
    decreases |s|
  {
    if s != [] {
      assert sep !in s[1..] by {
        forall i | 0 <= i < |s[1..]| ensures s[1..][i] != sep { assert s[1..][i] == s[i + 1]; }
      }
      SplitWithoutSeparator(s[1..], sep);
      assert [s[0]] + s[1..] == s;
    }
  }

  /** `firstTagValue`: the label, that is the first comma-separated segment of a tag. */
  function FirstTagValue(tag: string): string
  {
    Split(tag, ',')[0]
  }

  /** `secondTagValue`: the second comma-separated segment of a tag, or `""` when there is none. */
  function SecondTagValue(tag: string): string
  {
    var x := Split(tag, ',');
    if |x| > 1 then x[1] else ""
  }

  /** The label is the longest comma-free prefix of the tag: the whole tag when it has no comma,
      and otherwise the text before its first comma. */
  lemma {:induction false} FirstTagValueSpec(tag: string)
    ensures var r := FirstTagValue(tag);
      && r <= tag
      && ',' !in r
      && (|r| < |tag| ==> tag[|r|] == ',')
      && (',' !in tag ==> r == tag)
    decreases |tag|
  {
    SplitJoin(tag, ',');
    if tag != [] {
      FirstTagValueSpec(tag[1..]);
      var rest := Split(tag[1..], ',');
      if tag[0] != ',' {
        assert FirstTagValue(tag) == [tag[0]] + rest[0];
        assert ',' !in tag ==> ',' !in tag[1..];
      }
    }
  }

  /** The second segment is `""` when the tag has no comma, and otherwise the label of the text
      after the first comma: for `"foo,pk"` it is `"pk"`, for `"foo,pk,x"` it is `"pk"` too. */
  lemma SecondTagValueSpec(tag: string)
    ensures ',' !in tag ==> SecondTagValue(tag) == ""
    ensures ',' in tag ==>
      var k := |FirstTagValue(tag)|;
      k < |tag| && tag[k] == ',' && SecondTagValue(tag) == FirstTagValue(tag[k + 1..])
  {
    FirstTagValueSpec(tag);
    if ',' !in tag {
      SplitWithoutSeparator(tag, ',');
    } else {
      var k := |FirstTagValue(tag)|;
      assert tag[..k] == FirstTagValue(tag);
      SplitAtFirst(tag, ',', k);
    }
  }

  /** The two tag shapes the source uses: a bare label `l`, and `l,pk` for a primary-key
      column (`"foo_string1,pk"` has label `foo_string1` and second segment `pk`). */
  lemma LabelAndPkTags(lbl: string)
    requires ',' !in lbl
    ensures FirstTagValue(lbl) == lbl && SecondTagValue(lbl) == ""
    ensures FirstTagValue(lbl + ",pk") == lbl && SecondTagValue(lbl + ",pk") == "pk"
  {
    var tag := lbl + ",pk";
    assert tag[..|lbl|] == lbl && tag[|lbl| + 1..] == "pk";
    SplitAtFirst(tag, ',', |lbl|);
    SplitWithoutSeparator("pk", ',');
    SplitWithoutSeparator(lbl, ',');
  }

  // ---------------------------------------------------------------------------
  // Which fields are visited

  /** `unicode.IsUpper` on the first rune of a name; a name with no rune has none.
      Upper-case letters outside the Latin-1 range are not modelled. */
  predicate IsExported(name: string)
  {
    |name| > 0 &&
    var r := name[0];
    ('A' <= r <= 'Z') || ('À' <= r <= 'Þ' && r != '×')
  }

  /** A field takes part in a schema iff it has a non-empty `peanut` tag and an exported name. */
  predicate Included(f: FieldDecl)
  {
    f.tag != "" && IsExported(f.name)
  }

  /** The positions among the first `n` fields that are visited, in increasing order. */
  function VisitedUpTo(fields: seq<FieldDecl>, n: nat): (idx: seq<nat>)
    requires n <= |fields|
    ensures forall j :: 0 <= j < |idx| ==> idx[j] < n
    decreases n
  {
    if n == 0 then []
    else VisitedUpTo(fields, n - 1) + (if Included(fields[n - 1]) then [n - 1] else [])
  }

  /** Exactly the included positions are visited, each once, in declaration order. */
  lemma {:induction false} VisitedUpToExact(fields: seq<FieldDecl>, n: nat)
    requires n <= |fields|
    ensures forall k: nat :: k in VisitedUpTo(fields, n) <==> k < n && Included(fields[k])
    ensures forall a, b :: 0 <= a < b < |VisitedUpTo(fields, n)| ==>
      VisitedUpTo(fields, n)[a] < VisitedUpTo(fields, n)[b]
    decreases n
  {
    if n > 0 {
      VisitedUpToExact(fields, n - 1);
    }
  }

  function VisitedIndices(t: StructType): seq<nat>
  {
    VisitedUpTo(t.fields, |t.fields|)
  }

  /** The schema of a struct type: its visited field declarations, in declaration order. */
  function Schema(t: StructType): (s: seq<FieldDecl>)
    ensures |s| == |VisitedIndices(t)|
  {
    var idx := VisitedIndices(t);
    seq(|idx|, i requires 0 <= i < |idx| => t.fields[idx[i]])
  }

  /** `reflectStructFields` visits exactly the fields with a non-empty tag and an upper-case
      initial, each once, in declaration order. */
  lemma SchemaIsIncludedFields(t: StructType)
    ensures forall f :: f in Schema(t) ==> Included(f)
    ensures forall k :: 0 <= k < |t.fields| && Included(t.fields[k]) ==> t.fields[k] in Schema(t)
    ensures forall i :: 0 <= i < |Schema(t)| ==> Schema(t)[i] == t.fields[VisitedIndices(t)[i]]
    ensures forall a, b :: 0 <= a < b < |Schema(t)| ==> VisitedIndices(t)[a] < VisitedIndices(t)[b]
  {
    VisitedUpToExact(t.fields, |t.fields|);
    var idx := VisitedIndices(t);
    forall f | f in Schema(t) ensures Included(f) {
      var i :| 0 <= i < |Schema(t)| && Schema(t)[i] == f;
      assert idx[i] in idx;
    }
    forall k | 0 <= k < |t.fields| && Included(t.fields[k]) ensures t.fields[k] in Schema(t) {
      var i :| 0 <= i < |idx| && idx[i] == k;
      assert Schema(t)[i] == t.fields[k];
    }
  }

  lemma {:induction false} NothingVisited(fields: seq<FieldDecl>, n: nat)
    requires n <= |fields|
    requires forall k :: 0 <= k < n ==> !Included(fields[k])
    ensures VisitedUpTo(fields, n) == []
    decreases n
  {
    if n > 0 {
      NothingVisited(fields, n - 1);
    }
  }

  /** A struct type with no tagged exported field has an empty schema (it is still registered). */
  lemma EmptySchema(t: StructType)
    requires forall k :: 0 <= k < |t.fields| ==> !Included(t.fields[k])
    ensures Schema(t) == []
  {
    NothingVisited(t.fields, |t.fields|);
  }

  // ---------------------------------------------------------------------------
  // Types and records

  /** `baseType`: the dynamic type with one pointer level stripped. */
  function BaseType(t: DynType): DynType
  {
    if t.PointerTo? then t.elem else t
  }

  /** A struct and a pointer to it have the same base type; a pointer to a pointer keeps one level. */
  lemma BaseTypeStripsOneLevel(s: StructType)
    ensures BaseType(StructOf(s)) == BaseType(PointerTo(StructOf(s))) == StructOf(s)
    ensures BaseType(PointerTo(PointerTo(StructOf(s)))) == PointerTo(StructOf(s))
  {
  }

  /** What reflection on types needs of a value passed to `Write`: its base type is a struct.
      Anything else makes `reflect`'s `NumField` panic. */
  predicate IsStruct(x: Record)
  {
    BaseType(x.typ).StructOf?
  }

  /** What reflection needs of a value passed to `Write`: its base type is a struct, and it has a
      value of the right kind for each of that struct's fields. Anything else makes
      `reflect`'s `NumField` panic. */
  predicate WellFormed(x: Record)
  {
    && IsStruct(x)
    && |x.values| == |BaseType(x.typ).st.fields|
    && forall i :: 0 <= i < |x.values| ==> Fits(BaseType(x.typ).st.fields[i].kind, x.values[i])
  }

  /** The registry key of a record. */
  function TypeOf(x: Record): StructType
    requires IsStruct(x)
  {
    BaseType(x.typ).st
  }

  /** The visited (field, value) pairs of a record, in schema order. */
  function SchemaValues(x: Record): (pairs: seq<(FieldDecl, Value)>)
    requires WellFormed(x)
    ensures |pairs| == |Schema(TypeOf(x))|
    ensures forall i :: 0 <= i < |pairs| ==> pairs[i].0 == Schema(TypeOf(x))[i]
  {
    var t := TypeOf(x);
    var idx := VisitedIndices(t);
    seq(|idx|, i requires 0 <= i < |idx| => (t.fields[idx[i]], x.values[idx[i]]))
  }

  /** Each visited value is the record's value of that very field. */
  lemma SchemaValuesAreFieldValues(x: Record)
    requires WellFormed(x)
    ensures forall i :: 0 <= i < |SchemaValues(x)| ==>
      SchemaValues(x)[i].1 == x.values[VisitedIndices(TypeOf(x))[i]]
      && Fits(SchemaValues(x)[i].0.kind, SchemaValues(x)[i].1)
  {
  }

  /** `reflectStructFields`: walks the base struct's fields in declaration order and hands each
      tagged exported one to the callback; the visited fields are returned in callback order. */
  method ReflectStructFields(x: Record) returns (visited: seq<FieldDecl>)
    requires IsStruct(x)
    ensures visited == Schema(TypeOf(x))
  {
    var t := BaseType(x.typ).st;
    visited := [];
    ghost var idx: seq<nat> := [];
    var i := 0;
    while i < |t.fields|
      invariant i <= |t.fields|
      invariant idx == VisitedUpTo(t.fields, i)
      invariant |visited| == |idx|
      invariant forall k :: 0 <= k < |idx| ==> visited[k] == t.fields[idx[k]]
    {
      var field := t.fields[i];
      if field.tag != "" {
        if !IsExported(field.name) {
          i := i + 1;
          continue;
        }
        visited := visited + [field];
        idx := idx + [i];
      }
      i := i + 1;
    }
  }

  /** `reflectStructValues`: the same walk, handing each visited field's value to the callback.
      It visits the same fields in the same order as `ReflectStructFields`, so values line up
      one to one with the headers derived from the schema. */
  method ReflectStructValues(x: Record) returns (visited: seq<(FieldDecl, Value)>)
    requires IsStruct(x) && |x.values| == |TypeOf(x).fields|
    ensures |visited| == |Schema(TypeOf(x))|
    ensures forall i :: 0 <= i < |visited| ==>
      visited[i] == (Schema(TypeOf(x))[i], x.values[VisitedIndices(TypeOf(x))[i]])
    ensures WellFormed(x) ==> visited == SchemaValues(x)
  {
    var t := BaseType(x.typ).st;
    visited := [];
    ghost var idx: seq<nat> := [];
    var i := 0;
    while i < |t.fields|
      invariant i <= |t.fields|
      invariant idx == VisitedUpTo(t.fields, i)
      invariant |visited| == |idx|
      invariant forall k :: 0 <= k < |idx| ==> visited[k] == (t.fields[idx[k]], x.values[idx[k]])
    {
      var field := t.fields[i];
      if field.tag != "" {
        if !IsExported(field.name) {
          i := i + 1;
          continue;
        }
        var val := x.values[i];
        visited := visited + [(field, val)];
        idx := idx + [i];
      }
      i := i + 1;
    }
    assert idx == VisitedIndices(TypeOf(x));
  }

  // ---------------------------------------------------------------------------
  // Supported kinds

  /** Membership in the 14 scalar kinds of the `supportedKind` table. */
  predicate SupportedKind(k: Kind)
  {
    || k.String? || k.Bool? || k.Float64? || k.Float32?
    || k.Int8? || k.Int16? || k.Int32? || k.Int64? || k.Int?
    || k.Uint8? || k.Uint16? || k.Uint32? || k.Uint64? || k.Uint?
  }

  /** The message of the error for an unsupported field. */
  function UnsupportedMessage(structName: string, f: FieldDecl): string
  {
    "Unsupported type: " + KindName(f.kind) + " in " + structName + "." + f.name
  }

  /** `allFieldsSupportedKinds`: nil iff every visited field has a supported kind; otherwise the
      error names the kind, the struct and the field of the FIRST visited field whose kind is
      unsupported. */
  method AllFieldsSupportedKinds(x: Record) returns (err: Option<Error>)
    requires IsStruct(x)
    ensures err.None? <==> forall f :: f in Schema(TypeOf(x)) ==> SupportedKind(f.kind)
    ensures err.Some? ==>
      exists k :: 0 <= k < |Schema(TypeOf(x))|
        && !SupportedKind(Schema(TypeOf(x))[k].kind)
        && (forall j :: 0 <= j < k ==> SupportedKind(Schema(TypeOf(x))[j].kind))
        && err.value == Error(UnsupportedMessage(TypeOf(x).name, Schema(TypeOf(x))[k]))
  {
    var fields := ReflectStructFields(x);
    err := None;
    var i := 0;
    while i < |fields|
      invariant i <= |fields|
      invariant err.None? <==> forall j :: 0 <= j < i ==> SupportedKind(fields[j].kind)
      invariant err.Some? ==>
        exists k :: 0 <= k < i
          && !SupportedKind(fields[k].kind)
          && (forall j :: 0 <= j < k ==> SupportedKind(fields[j].kind))
          && err.value == Error(UnsupportedMessage(TypeOf(x).name, fields[k]))
    {
      var f := fields[i];
      if !SupportedKind(f.kind) {
        if err.None? {
          var sn := BaseType(x.typ).st.name;
          err := Some(Error(UnsupportedMessage(sn, f)));
        }
      }
      i := i + 1;
    }
  }

  // ---------------------------------------------------------------------------
  // Values

  /** `stringValues` (the `%v` version): one rendering per visited field, in schema order. */
  method StringValues(x: Record) returns (out: seq<string>)
    requires WellFormed(x)
    ensures |out| == |Schema(TypeOf(x))|
    ensures forall i :: 0 <= i < |out| ==> out[i] == Sprint(SchemaValues(x)[i].1)
    ensures out == Shown(x)
  {
    var pairs := ReflectStructValues(x);
    out := [];
    var i := 0;
    while i < |pairs|
      invariant i <= |pairs|
      invariant |out| == i
      invariant forall k :: 0 <= k < i ==> out[k] == Sprint(pairs[k].1)
    {
      out := out + [Sprint(pairs[i].1)];
      i := i + 1;
    }
  }

  /** The renderings of the visited values, one per visited field in schema order. */
  function Shown(x: Record): (s: seq<string>)
    requires WellFormed(x)
    ensures |s| == |Schema(TypeOf(x))|
  {
    var sv := SchemaValues(x);
    seq(|sv|, i requires 0 <= i < |sv| => Sprint(sv[i].1))
  }

  /** The two kinds the older value extractors (the log writer's `stringValues`, the JSON Lines
      writer's `mapValues`) handle. */
  predicate StringOrInt(k: Kind)
  {
    k.String? || k.Int?
  }

  /** The fields the older value extractors handle: a string or int kind whose declared type is
      `string` or `int` itself. Their type assertions `v.(string)` and `v.(int)` fail on a named
      type such as `type UserID int`. */
  predicate Handled(f: FieldDecl)
  {
    StringOrInt(f.kind) && f.typeName == KindName(f.kind)
  }

  /** The index of the first pair the older value extractors do not handle, or the length when
      there is none. */
  function FirstUnhandled(pairs: seq<(FieldDecl, Value)>): (k: nat)
    ensures k <= |pairs|
    ensures forall j :: 0 <= j < k ==> Handled(pairs[j].0)
    ensures k < |pairs| ==> !Handled(pairs[k].0)
    decreases |pairs|
  {
    if pairs == [] || !Handled(pairs[0].0) then 0 else 1 + FirstUnhandled(pairs[1..])
  }

  /** The panic message of the older value extractors for a value of a kind they do not handle. */
  function UnknownTypeMessage(v: Value): string
  {
    "Unknown type: " + Sprint(v)
  }

  /** The panic of the older value extractors at a field they do not handle: the failed type
      assertion for a string or int kind of a named type, and otherwise their `default` case. */
  function UnhandledMessage(f: FieldDecl, v: Value): string
  {
    if StringOrInt(f.kind) then ConversionMessage(f.typeName, KindName(f.kind)) else UnknownTypeMessage(v)
  }

  /** A map filled from (label, value) pairs in order, each pair overwriting earlier ones. */
  function LabelMap<T>(pairs: seq<(string, T)>): map<string, T>
    decreases |pairs|
  {
    if pairs == [] then map[]
    else LabelMap(pairs[..|pairs| - 1])[pairs[|pairs| - 1].0 := pairs[|pairs| - 1].1]
  }

  /** The keys of a label map are exactly the labels of its pairs. */
  lemma {:induction false} LabelMapKeys<T>(pairs: seq<(string, T)>)
    ensures forall k :: k in LabelMap(pairs) <==> exists i :: 0 <= i < |pairs| && pairs[i].0 == k
    decreases |pairs|
  {
    if pairs != [] {
      var init := pairs[..|pairs| - 1];
      LabelMapKeys(init);
      forall k | k in LabelMap(pairs) ensures exists i :: 0 <= i < |pairs| && pairs[i].0 == k {
        if k != pairs[|pairs| - 1].0 {
          assert k in LabelMap(init);
          var i :| 0 <= i < |init| && init[i].0 == k;
          assert pairs[i].0 == k;
        }
      }
      forall k | exists i :: 0 <= i < |pairs| && pairs[i].0 == k ensures k in LabelMap(pairs) {
        var i :| 0 <= i < |pairs| && pairs[i].0 == k;
        if i < |pairs| - 1 { assert init[i].0 == k; }
      }
    }
  }

  /** Each entry of a label map comes from one of its pairs. */
  lemma {:induction false} LabelMapValues<T>(pairs: seq<(string, T)>)
    ensures forall k :: k in LabelMap(pairs) ==> exists i :: 0 <= i < |pairs| && pairs[i] == (k, LabelMap(pairs)[k])
    decreases |pairs|
  {
    if pairs != [] {
      var init := pairs[..|pairs| - 1];
      LabelMapValues(init);
      forall k | k in LabelMap(pairs) ensures exists i :: 0 <= i < |pairs| && pairs[i] == (k, LabelMap(pairs)[k]) {
        var last := |pairs| - 1;
        if k != pairs[last].0 {
          assert k in LabelMap(init) && LabelMap(pairs)[k] == LabelMap(init)[k];
          var i :| 0 <= i < |init| && init[i] == (k, LabelMap(init)[k]);
          assert pairs[i] == (k, LabelMap(pairs)[k]);
        } else {
          assert pairs[last] == (k, LabelMap(pairs)[k]);
        }
      }
    }
  }

  /** Filling the map with one more pair overwrites that pair's label. */
  lemma LabelMapStep<T>(pairs: seq<(string, T)>, i: nat)
    requires i < |pairs|
    ensures LabelMap(pairs[..i + 1]) == LabelMap(pairs[..i])[pairs[i].0 := pairs[i].1]
  {
    assert pairs[..i + 1][..i] == pairs[..i];
  }

  /** Each label holds the value of the LAST pair with that label: a later field with the same
      label overwrites an earlier one. */
  lemma {:induction false} LabelMapLastWins<T>(pairs: seq<(string, T)>, i: nat)
    requires i < |pairs|
    requires forall j :: i < j < |pairs| ==> pairs[j].0 != pairs[i].0
    ensures pairs[i].0 in LabelMap(pairs) && LabelMap(pairs)[pairs[i].0] == pairs[i].1
    decreases |pairs|
  {
    if i < |pairs| - 1 {
      var init := pairs[..|pairs| - 1];
      assert init[i] == pairs[i];
      LabelMapLastWins(init, i);
    }
  }

  /** The (label, value) pairs of a record: each visited field's first tag segment with its value. */
  function LabelledValues(x: Record): (pairs: seq<(string, Value)>)
    requires WellFormed(x)
    ensures |pairs| == |Schema(TypeOf(x))|
  {
    var sv := SchemaValues(x);
    seq(|sv|, i requires 0 <= i < |sv| => (FirstTagValue(sv[i].0.tag), sv[i].1))
  }

  /** Each label with the `%v` rendering of its value. */
  function Rendered(pairs: seq<(string, Value)>): (r: seq<(string, string)>)
    ensures |r| == |pairs|
    ensures forall i :: 0 <= i < |r| ==> r[i] == (pairs[i].0, Sprint(pairs[i].1))
  {
    seq(|pairs|, i requires 0 <= i < |pairs| => (pairs[i].0, Sprint(pairs[i].1)))
  }

  /** `stringValuesAsMap` (the `%v` version): label to rendering, a later field with the same
      label overwriting an earlier one. */
  method StringValuesAsMap(x: Record) returns (out: map<string, string>)
    requires WellFormed(x)
    ensures out == LabelMap(Rendered(LabelledValues(x)))
  {
    var pairs := ReflectStructValues(x);
    ghost var want := Rendered(LabelledValues(x));
    out := map[];
    var i := 0;
    while i < |pairs|
      invariant i <= |pairs|
      invariant out == LabelMap(want[..i])
    {
      var tag := FirstTagValue(pairs[i].0.tag);
      out := out[tag := Sprint(pairs[i].1)];
      LabelMapStep(want, i);
      i := i + 1;
    }
    assert want[..|pairs|] == want;
  }

  /** `mapValues` (the untyped version): label to value, a later field with the same label
      overwriting an earlier one. */
  method MapValues(x: Record) returns (out: map<string, Value>)
    requires WellFormed(x)
    ensures out == LabelMap(LabelledValues(x))
  {
    var pairs := ReflectStructValues(x);
    ghost var lv := LabelledValues(x);
    out := map[];
    var i := 0;
    while i < |pairs|
      invariant i <= |pairs|
      invariant out == LabelMap(lv[..i])
    {
      var tag := FirstTagValue(pairs[i].0.tag);
      out := out[tag := pairs[i].1];
      LabelMapStep(lv, i);
      i := i + 1;
    }
    assert lv[..|pairs|] == lv;
  }
}
