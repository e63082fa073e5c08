/** The type-keyed schema cache every writer embeds: headers, kinds and tags per struct type,
    discovered on the first sight of the type only. */
module BaseWriter {
  import opened Records
  import opened Peanut

  /** The column headers of a type: the label of each visited field. */
  function Headers(t: StructType): (h: seq<string>)
    ensures |h| == |Schema(t)|
  {
    seq(|Schema(t)|, i requires 0 <= i < |Schema(t)| => FirstTagValue(Schema(t)[i].tag))
  }

  /** The kinds of the visited fields of a type. */
  function Kinds(t: StructType): (k: seq<Kind>)
    ensures |k| == |Schema(t)|
  {
    seq(|Schema(t)|, i requires 0 <= i < |Schema(t)| => Schema(t)[i].kind)
  }

  /** The full tags of the visited fields of a type. */
  function Tags(t: StructType): (g: seq<string>)
    ensures |g| == |Schema(t)|
  {
    seq(|Schema(t)|, i requires 0 <= i < |Schema(t)| => Schema(t)[i].tag)
  }

  /** The three cached lists have equal length, follow field order, and each header is the
      first segment of the tag at the same position. */
  lemma ColumnsAlign(t: StructType)
    ensures |Headers(t)| == |Kinds(t)| == |Tags(t)|
    ensures forall i :: 0 <= i < |Headers(t)| ==>
      Headers(t)[i] == FirstTagValue(Tags(t)[i]) && Kinds(t)[i] == Schema(t)[i].kind
  {
  }

  /** Lists built column by column from the visited fields are the cached columns of the type. */
  lemma ColumnsOfVisited(t: StructType, visited: seq<FieldDecl>, headers: seq<string>, types: seq<Kind>, tags: seq<string>)
    requires visited == Schema(t)
    requires |headers| == |types| == |tags| == |visited|
    requires forall k :: 0 <= k < |visited| ==>
      headers[k] == FirstTagValue(visited[k].tag) && types[k] == visited[k].kind && tags[k] == visited[k].tag
    ensures headers == Headers(t) && types == Kinds(t) && tags == Tags(t)
  {
  }

  /** The callback of `base.register`: appends, for every visited field, its label, its kind and
      its full tag to three lists. */
  method CollectColumns(visited: seq<FieldDecl>) returns (headers: seq<string>, types: seq<Kind>, tags: seq<string>)
    ensures |headers| == |types| == |tags| == |visited|
    ensures forall k :: 0 <= k < |visited| ==>
      headers[k] == FirstTagValue(visited[k].tag) && types[k] == visited[k].kind && tags[k] == visited[k].tag
  {
    headers, types, tags := [], [], [];
    var i := 0;
    while i < |visited|
      invariant i <= |visited|
      invariant |headers| == |types| == |tags| == i
      invariant forall k :: 0 <= k < i ==>
        headers[k] == FirstTagValue(visited[k].tag) && types[k] == visited[k].kind && tags[k] == visited[k].tag
    {
      var f := visited[i];
      headers := headers + [FirstTagValue(f.tag)];
      types := types + [f.kind];
      tags := tags + [f.tag];
      i := i + 1;
    }
  }

  /** Three caches with the same keys, each entry holding the columns of its key. */
  predicate Consistent(h: map<StructType, seq<string>>, ty: map<StructType, seq<Kind>>, tg: map<StructType, seq<string>>)
  {
    && h.Keys == ty.Keys == tg.Keys
    && forall t {:trigger h[t]} {:trigger ty[t]} {:trigger tg[t]} :: t in h ==> h[t] == Headers(t) && ty[t] == Kinds(t) && tg[t] == Tags(t)
  }

  /** Caching a type's own columns keeps the caches consistent. */
  lemma ConsistentInsert(h: map<StructType, seq<string>>, ty: map<StructType, seq<Kind>>, tg: map<StructType, seq<string>>, t: StructType)
    requires Consistent(h, ty, tg)
    ensures Consistent(h[t := Headers(t)], ty[t := Kinds(t)], tg[t := Tags(t)])
  {
  }

  class Base {
    /** Whether the three maps have been made (Go's maps start out nil). */
    var made: bool
    var headersByType: map<StructType, seq<string>>
    var typesByType: map<StructType, seq<Kind>>
    var tagsByType: map<StructType, seq<string>>
    var closed: bool

    /** The maps share their keys, and each entry holds the schema of its key. */
    ghost predicate Valid()
      reads this
    {
      && (!made ==> headersByType == map[])
      && Consistent(headersByType, typesByType, tagsByType)
    }

    /** The set of registered types. */
    ghost function Registered(): set<StructType>
      reads this
    {
      headersByType.Keys
    }

    /** `&base{}`: nil maps, not closed. */
    constructor ()
      ensures Valid() && !made && !closed && Registered() == {}
    {
      made := false;
      headersByType := map[];
      typesByType := map[];
      tagsByType := map[];
      closed := false;
    }

    /** `base.register`: on the first sight of a type, caches its headers, kinds and tags and
        reports it as new; on any later sight returns the same type, reports it as old and
        changes nothing. */
    method Register(x: Record) returns (t: StructType, isNew: bool)
      requires Valid() && IsStruct(x)
      modifies this
      ensures Valid() && made && closed == old(closed)
      ensures t == TypeOf(x)
      ensures isNew <==> t !in old(Registered())
      ensures Registered() == old(Registered()) + {t}
      ensures !isNew ==> unchanged(this)
      ensures isNew ==>
        && headersByType == old(headersByType)[t := Headers(t)]
        && typesByType == old(typesByType)[t := Kinds(t)]
        && tagsByType == old(tagsByType)[t := Tags(t)]
    {
      if !made {
        made := true;
        headersByType := map[];
        typesByType := map[];
        tagsByType := map[];
      }
      t := BaseType(x.typ).st;
      if t in headersByType {
        return t, false;
      }

      Cache(x);
      return t, true;
    }

    /** The new-type half of `base.register`: walks the fields once and stores the three
        column lists under the type. */
    method Cache(x: Record)
      requires Valid() && made && IsStruct(x) && TypeOf(x) !in headersByType
      modifies this
      ensures Valid() && made && closed == old(closed)
      ensures headersByType == old(headersByType)[TypeOf(x) := Headers(TypeOf(x))]
      ensures typesByType == old(typesByType)[TypeOf(x) := Kinds(TypeOf(x))]
      ensures tagsByType == old(tagsByType)[TypeOf(x) := Tags(TypeOf(x))]
    {
      var t := BaseType(x.typ).st;
      var visited := ReflectStructFields(x);
      var headers, types, tags := CollectColumns(visited);
      ColumnsOfVisited(t, visited, headers, types, tags);
      ConsistentInsert(headersByType, typesByType, tagsByType, t);
      headersByType := headersByType[t := headers];
      typesByType := typesByType[t := types];
      tagsByType := tagsByType[t := tags];
    }
  }
}
