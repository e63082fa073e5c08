/** The writer that puts records into one SQLite database, one table per record type. The
    database lives in a temporary file, opened on the first newly registered type, and is moved
    to `filename + ".sqlite"` by `Close`. Each newly registered type gets a `CREATE TABLE`
    statement and a prepared `INSERT`; the database engine itself is a sink whose outcomes are
    given to the model. */
module Sqlite {
  import opened Records
  import P = Peanut
  import opened BaseWriter
  import opened Files

  // ---------------------------------------------------------------------------
  // Text

  /** `strings.Join(parts, sep)` for a separator of any length; no parts give `""`. */
  function JoinText(parts: seq<string>, sep: string): string
    decreases |parts|
  {
    if parts == [] then ""
    else if |parts| == 1 then parts[0]
    else parts[0] + sep + JoinText(parts[1..], sep)
  }

  /** With a one-character separator this is the join `firstTagValue` splits. */
  lemma {:induction false} JoinTextOneChar(parts: seq<string>, c: char)
    requires |parts| >= 1
    ensures JoinText(parts, [c]) == P.Join(parts, c)
    decreases |parts|
  {
    if |parts| > 1 {
      JoinTextOneChar(parts[1..], c);
    }
  }

  /** Joining pieces that do not contain the separator and splitting the result gives the pieces
      back. */
  lemma {:induction false} JoinSplit(parts: seq<string>, sep: char)
    requires |parts| >= 1
    requires forall i :: 0 <= i < |parts| ==> sep !in parts[i]
    ensures P.Split(P.Join(parts, sep), sep) == parts
    decreases |parts|
  {
    if |parts| == 1 {
      P.SplitWithoutSeparator(parts[0], sep);
    } else {
      var rest := P.Join(parts[1..], sep);
      JoinSplit(parts[1..], sep);
      var s := parts[0] + [sep] + rest;
      var k := |parts[0]|;
      assert s[..k] == parts[0] && s[k + 1..] == rest && s[k] == sep;
      P.SplitAtFirst(s, sep, k);
      assert parts == [parts[0]] + parts[1..];
    }
  }

  // ---------------------------------------------------------------------------
  // CREATE TABLE

  /** The SQLite type of a column of a supported kind. */
  function ColumnType(k: Kind): string
    requires P.StringOrInt(k)
  {
    if k == String then "TEXT" else "INTEGER"
  }

  /** The definition of one column. */
  function ColumnLine(h: string, k: Kind): string
    requires P.StringOrInt(k)
  {
    "\t" + h + " " + ColumnType(k) + " NOT NULL"
  }

  /** Whether a field is part of the primary key: the second segment of its tag is `pk`. */
  predicate IsPrimaryKey(tag: string)
  {
    P.SecondTagValue(tag) == "pk"
  }

  /** The positions of the primary-key fields: every such position, each once, in field order. */
  function PkIndices(tags: seq<string>): (idx: seq<nat>)
    ensures forall j :: 0 <= j < |idx| ==> idx[j] < |tags| && IsPrimaryKey(tags[idx[j]])
    ensures forall j1, j2 :: 0 <= j1 < j2 < |idx| ==> idx[j1] < idx[j2]
    ensures forall i :: 0 <= i < |tags| && IsPrimaryKey(tags[i]) ==> i in idx
    decreases |tags|
  {
    if tags == [] then []
    else PkIndices(tags[..|tags| - 1]) + (if IsPrimaryKey(tags[|tags| - 1]) then [|tags| - 1] else [])
  }

  /** The headers of the primary-key fields, in field order. */
  function PrimaryKeys(hdrs: seq<string>, tags: seq<string>): (pks: seq<string>)
    requires |hdrs| == |tags|
    ensures |pks| == |PkIndices(tags)|
  {
    var idx := PkIndices(tags);
    seq(|idx|, j requires 0 <= j < |idx| => hdrs[idx[j]])
  }

  /** Looking at one more field adds its header to the primary key when it is a key field. */
  lemma PrimaryKeysStep(hdrs: seq<string>, tags: seq<string>, i: nat)
    requires |hdrs| == |tags| && i < |tags|
    ensures PrimaryKeys(hdrs[..i + 1], tags[..i + 1])
         == PrimaryKeys(hdrs[..i], tags[..i]) + (if IsPrimaryKey(tags[i]) then [hdrs[i]] else [])
  {
    assert tags[..i + 1][..i] == tags[..i];
    var a := PrimaryKeys(hdrs[..i + 1], tags[..i + 1]);
    var b := PrimaryKeys(hdrs[..i], tags[..i]) + (if IsPrimaryKey(tags[i]) then [hdrs[i]] else []);
    assert |a| == |b|;
    forall j | 0 <= j < |a| ensures a[j] == b[j] {
      if j < |PkIndices(tags[..i])| {
        assert PkIndices(tags[..i + 1])[j] == PkIndices(tags[..i])[j];
      }
    }
  }

  /** The definitions of the columns, one per field, in field order. */
  function ColumnLines(hdrs: seq<string>, kinds: seq<Kind>): (cols: seq<string>)
    requires |hdrs| == |kinds|
    requires forall i :: 0 <= i < |kinds| ==> P.StringOrInt(kinds[i])
    ensures |cols| == |hdrs|
  {
    seq(|hdrs|, i requires 0 <= i < |hdrs| => ColumnLine(hdrs[i], kinds[i]))
  }

  /** The line declaring the primary key, when there is one. */
  function PkLine(pks: seq<string>): seq<string>
  {
    if |pks| > 0 then ["PRIMARY KEY (" + JoinText(pks, ", ") + ")"] else []
  }

  /** The lines inside `CREATE TABLE ... ( )`. */
  function DDLLines(hdrs: seq<string>, kinds: seq<Kind>, tags: seq<string>): seq<string>
    requires |hdrs| == |kinds| == |tags|
    requires forall i :: 0 <= i < |kinds| ==> P.StringOrInt(kinds[i])
  {
    ColumnLines(hdrs, kinds) + PkLine(PrimaryKeys(hdrs, tags))
  }

  /** The lines are one definition per column, in field order, then a `PRIMARY KEY` line exactly
      when some field is a key field. */
  lemma DDLLinesShape(hdrs: seq<string>, kinds: seq<Kind>, tags: seq<string>)
    requires |hdrs| == |kinds| == |tags|
    requires forall i :: 0 <= i < |kinds| ==> P.StringOrInt(kinds[i])
    ensures var lines := DDLLines(hdrs, kinds, tags);
      && (|lines| == |hdrs| || |lines| == |hdrs| + 1)
      && (|lines| == |hdrs| + 1 <==> exists i :: 0 <= i < |tags| && IsPrimaryKey(tags[i]))
      && forall i :: 0 <= i < |hdrs| ==> lines[i] == "\t" + hdrs[i] + " " + (if kinds[i] == String then "TEXT" else "INTEGER") + " NOT NULL"
  {
    var idx := PkIndices(tags);
    if exists i :: 0 <= i < |tags| && IsPrimaryKey(tags[i]) {
      var i :| 0 <= i < |tags| && IsPrimaryKey(tags[i]);
      assert i in idx;
    }
  }

  /** `createDDL` of a type with these cached columns: a panic naming the type when a column is
      neither a string nor an int, and otherwise the `CREATE TABLE` statement. */
  function DDL(name: string, hdrs: seq<string>, kinds: seq<Kind>, tags: seq<string>): (out: Outcome<string>)
    requires |hdrs| == |kinds| == |tags|
    ensures out.Returned? <==> forall i :: 0 <= i < |kinds| ==> P.StringOrInt(kinds[i])
  {
    if exists i :: 0 <= i < |kinds| && !P.StringOrInt(kinds[i]) then Panicked("Unknown type: " + name)
    else Returned("CREATE TABLE " + name + " (\n" + JoinText(DDLLines(hdrs, kinds, tags), ",\n") + "\n)")
  }

  /** The primary-key line lists exactly the key fields' headers, in field order, separated by
      `", "`. */
  lemma PrimaryKeyLine(hdrs: seq<string>, kinds: seq<Kind>, tags: seq<string>, i: nat)
    requires |hdrs| == |kinds| == |tags|
    requires forall k :: 0 <= k < |kinds| ==> P.StringOrInt(kinds[k])
    requires i < |tags| && IsPrimaryKey(tags[i])
    ensures var pks := PrimaryKeys(hdrs, tags);
      && |DDLLines(hdrs, kinds, tags)| > |hdrs|
      && DDLLines(hdrs, kinds, tags)[|hdrs|] == "PRIMARY KEY (" + JoinText(pks, ", ") + ")"
      && hdrs[i] in pks
      && forall j :: 0 <= j < |pks| ==> exists k :: 0 <= k < |tags| && IsPrimaryKey(tags[k]) && pks[j] == hdrs[k]
  {
    var idx := PkIndices(tags);
    var j :| 0 <= j < |idx| && idx[j] == i;
    assert |PrimaryKeys(hdrs, tags)| > 0;
    assert PrimaryKeys(hdrs, tags)[j] == hdrs[i];
    forall j | 0 <= j < |idx| ensures exists k :: 0 <= k < |tags| && IsPrimaryKey(tags[k]) && PrimaryKeys(hdrs, tags)[j] == hdrs[k] {
      assert PrimaryKeys(hdrs, tags)[j] == hdrs[idx[j]];
    }
  }

  /** The table definition of a registered type: a `CREATE TABLE` named after the type with one
      column per visited field, labelled by the field's first tag segment; it panics exactly
      when some visited field is neither a string nor an int. */
  lemma DDLOfType(t: StructType)
    ensures DDL(t.name, Headers(t), Kinds(t), Tags(t)).Returned? <==>
      forall i :: 0 <= i < |P.Schema(t)| ==> P.StringOrInt(P.Schema(t)[i].kind)
    ensures DDL(t.name, Headers(t), Kinds(t), Tags(t)).Panicked? ==>
      DDL(t.name, Headers(t), Kinds(t), Tags(t)).message == "Unknown type: " + t.name
    ensures DDL(t.name, Headers(t), Kinds(t), Tags(t)).Returned? ==>
      forall i :: 0 <= i < |P.Schema(t)| ==>
        ColumnLines(Headers(t), Kinds(t))[i] == ColumnLine(P.FirstTagValue(P.Schema(t)[i].tag), P.Schema(t)[i].kind)
  {
    ColumnsAlign(t);
  }

  /** `createDDL`: builds the column definitions and the primary-key list, then joins the
      lines. */
  method CreateDDL(name: string, hdrs: seq<string>, typs: seq<Kind>, tags: seq<string>) returns (out: Outcome<string>)
    requires |hdrs| == |typs| == |tags|
    ensures out == DDL(name, hdrs, typs, tags)
  {
    var ddl := "CREATE TABLE " + name + " (\n";
    var cols := DefineColumns(name, hdrs, typs, tags);
    if cols.Panicked? {
      return Panicked(cols.message);
    }
    var (lines, pks) := cols.value;
    if |pks| > 0 {
      var pk := "PRIMARY KEY (";
      pk := pk + JoinText(pks, ", ");
      pk := pk + ")";
      lines := lines + [pk];
    }
    assert lines == DDLLines(hdrs, typs, tags);
    ddl := ddl + JoinText(lines, ",\n");
    ddl := ddl + "\n)";
    return Returned(ddl);
  }

  /** The loop of `createDDL`: one definition per field and the headers of the key fields,
      panicking at a field that is neither a string nor an int. */
  method DefineColumns(name: string, hdrs: seq<string>, typs: seq<Kind>, tags: seq<string>)
    returns (out: Outcome<(seq<string>, seq<string>)>)
    requires |hdrs| == |typs| == |tags|
    ensures out.Panicked? <==> exists i :: 0 <= i < |typs| && !P.StringOrInt(typs[i])
    ensures out.Panicked? ==> out.message == "Unknown type: " + name
    ensures out.Returned? ==> out.value == (ColumnLines(hdrs, typs), PrimaryKeys(hdrs, tags))
  {
    var lines: seq<string> := [];
    var pks: seq<string> := [];
    var i := 0;
    while i < |typs|
      invariant i <= |typs| && |lines| == i
      invariant forall j :: 0 <= j < i ==> P.StringOrInt(typs[j]) && lines[j] == ColumnLine(hdrs[j], typs[j])
      invariant pks == PrimaryKeys(hdrs[..i], tags[..i])
    {
      var col := "\t" + hdrs[i] + " ";
      if typs[i] == String {
        col := col + "TEXT";
      } else if typs[i] == Int {
        col := col + "INTEGER";
      } else {
        return Panicked("Unknown type: " + name);
      }
      col := col + " NOT NULL";
      lines := lines + [col];
      PrimaryKeysStep(hdrs, tags, i);
      if P.SecondTagValue(tags[i]) == "pk" {
        pks := pks + [hdrs[i]];
      }
      i := i + 1;
    }
    assert hdrs[..i] == hdrs && tags[..i] == tags;
    assert lines == ColumnLines(hdrs, typs);
    return Returned((lines, pks));
  }

  // ---------------------------------------------------------------------------
  // INSERT

  /** One `?` per column. */
  function Placeholders(n: nat): (q: seq<string>)
    ensures |q| == n && forall i :: 0 <= i < n ==> q[i] == "?"
  {
    seq(n, _ => "?")
  }

  /** `createInsert` of a type with these headers. */
  function Insert(name: string, hdrs: seq<string>): string
  {
    "INSERT OR IGNORE INTO " + name + " (" + JoinText(hdrs, ",") + ") VALUES (" + JoinText(Placeholders(|hdrs|), ",") + ")"
  }

  /** The insert of a type names the table after the type and has one placeholder per column:
      its column list splits at the commas into exactly the type's headers, and its value list
      into exactly as many `?` (both lists are empty for a type without columns). */
  lemma InsertOfType(t: StructType)
    ensures var n := |Headers(t)|;
      && Insert(t.name, Headers(t))
         == "INSERT OR IGNORE INTO " + t.name + " (" + JoinText(Headers(t), ",") + ") VALUES (" + JoinText(Placeholders(n), ",") + ")"
      && (n == 0 ==> JoinText(Headers(t), ",") == "" && JoinText(Placeholders(n), ",") == "")
      && (n > 0 ==> P.Split(JoinText(Headers(t), ","), ',') == Headers(t))
      && (n > 0 ==> P.Split(JoinText(Placeholders(n), ","), ',') == Placeholders(n))
  {
    var h := Headers(t);
    var n := |h|;
    if n > 0 {
      forall i | 0 <= i < n ensures ',' !in h[i] {
        P.FirstTagValueSpec(P.Schema(t)[i].tag);
      }
      JoinTextOneChar(h, ',');
      JoinSplit(h, ',');
      JoinTextOneChar(Placeholders(n), ',');
      JoinSplit(Placeholders(n), ',');
    }
  }

  /** `createInsert`: fills a slice of `n` placeholders and joins it. */
  method CreateInsert(name: string, hdrs: seq<string>) returns (s: string)
    ensures s == Insert(name, hdrs)
  {
    s := "INSERT OR IGNORE INTO " + name + " (";
    s := s + JoinText(hdrs, ",");
    s := s + ") VALUES (";
    var q := new string[|hdrs|];
    var i := 0;
    while i < q.Length
      invariant i <= q.Length
      invariant forall j :: 0 <= j < i ==> q[j] == "?"
    {
      q[i] := "?";
      i := i + 1;
    }
    assert q[..] == Placeholders(|hdrs|);
    s := s + JoinText(q[..], ",");
    s := s + ")";
  }

  // ---------------------------------------------------------------------------
  // INSERT ARGUMENTS

  /** The index of the first visited field whose kind `excelValuesFrom` rejects, one neither
      string nor int, or the length when there is none. It switches on the kind alone and passes
      the value on as it is, so a field of a named string or int type is accepted. */
  function FirstRejected(pairs: seq<(FieldDecl, Value)>): (k: nat)
    ensures k <= |pairs|
    ensures forall j :: 0 <= j < k ==> P.StringOrInt(pairs[j].0.kind)
    ensures k < |pairs| ==> !P.StringOrInt(pairs[k].0.kind)
    decreases |pairs|
  {
    if pairs == [] || !P.StringOrInt(pairs[0].0.kind) then 0 else 1 + FirstRejected(pairs[1..])
  }

  /** `excelValuesFrom` of a record: the arguments of its insert, its visited values in order,
      or the "Unknown type" panic of the first rejected field. */
  function ExcelValues(x: Record): Outcome<seq<Value>>
    requires P.WellFormed(x)
  {
    var pairs := P.SchemaValues(x);
    var k := FirstRejected(pairs);
    if k < |pairs| then Panicked(P.UnknownTypeMessage(pairs[k].1))
    else Returned(seq(|pairs|, i requires 0 <= i < |pairs| => pairs[i].1))
  }

  /** The insert arguments exist exactly for the records whose type has a table definition, and
      then there is one per column: the record's value of the field that column was made from. */
  lemma ExcelValuesFitTable(x: Record)
    requires P.WellFormed(x)
    ensures var t := P.TypeOf(x);
      ExcelValues(x).Returned? <==> DDL(t.name, Headers(t), Kinds(t), Tags(t)).Returned?
    ensures var t := P.TypeOf(x);
      ExcelValues(x).Returned? ==>
        && |ExcelValues(x).value| == |Headers(t)|
        && forall i :: 0 <= i < |Headers(t)| ==> ExcelValues(x).value[i] == x.values[P.VisitedIndices(t)[i]]
    ensures ExcelValues(x).Panicked? ==>
      exists i :: 0 <= i < |P.SchemaValues(x)| && !P.StringOrInt(P.SchemaValues(x)[i].0.kind)
        && ExcelValues(x).message == "Unknown type: " + Sprint(P.SchemaValues(x)[i].1)
  {
    var t := P.TypeOf(x);
    var pairs := P.SchemaValues(x);
    DDLOfType(t);
    ColumnsAlign(t);
    P.SchemaValuesAreFieldValues(x);
    var k := FirstRejected(pairs);
    if k < |pairs| {
      assert !P.StringOrInt(P.Schema(t)[k].kind);
    }
  }

  /** `excelValuesFrom`: the callback appends each visited value, and panics at a field of any
      other kind than string or int. */
  method ExcelValuesFrom(x: Record) returns (out: Outcome<seq<Value>>)
    requires P.WellFormed(x)
    ensures out == ExcelValues(x)
  {
    var pairs := P.ReflectStructValues(x);
    var vs: seq<Value> := [];
    var i := 0;
    while i < |pairs|
      invariant i <= |pairs|
      invariant forall j :: 0 <= j < i ==> P.StringOrInt(pairs[j].0.kind)
      invariant |vs| == i && forall j :: 0 <= j < i ==> vs[j] == pairs[j].1
    {
      var f := pairs[i].0;
      var v := pairs[i].1;
      if f.kind == String || f.kind == Int {
        vs := vs + [v];
      } else {
        assert FirstRejected(pairs) == i;
        return Panicked(P.UnknownTypeMessage(v));
      }
      i := i + 1;
    }
    assert FirstRejected(pairs) == |pairs|;
    assert vs == seq(|pairs|, j requires 0 <= j < |pairs| => pairs[j].1);
    return Returned(vs);
  }

  // ---------------------------------------------------------------------------
  // The writer

  /** What the database and its file hold: whether it is open (`db != nil`), its temporary file,
      the staged files, the DDL it has executed, the prepared insert per type (by its text). */
  datatype Db = Db(open: bool, tmp: string, staged: set<string>, executed: seq<string>,
                   statements: map<StructType, string>)

  /** The first part of the new-type half of `register`: an open database is kept; otherwise a
      temporary name is drawn and the database opened on it, either step failing with its
      error. */
  ghost function Opened(s: Db, tempName: Result<string>, openErr: Option<Error>): Result<Db>
  {
    if s.open then Ok(s)
    else if tempName.Err? then Err(tempName.error)
    else if openErr.Some? then Err(openErr.value)
    else Ok(s.(open := true, tmp := tempName.value, staged := s.staged + {tempName.value}))
  }

  /** The rest of it, on the open database `s`: creates the type's table and prepares its insert,
      stopping at the first failing step with its error, or panicking in `createDDL`. */
  ghost function Defined(s: Db, t: StructType, execErr: Option<Error>, prepareErr: Option<Error>): (Outcome<Option<Error>>, Db)
  {
    match DDL(t.name, Headers(t), Kinds(t), Tags(t))
    case Panicked(m) => (Panicked(m), s)
    case Returned(ddl) => Installed(s, t, ddl, execErr, prepareErr)
  }

  /** Executing the DDL `ddl` of type `t` and preparing its insert. */
  ghost function Installed(s: Db, t: StructType, ddl: string, execErr: Option<Error>, prepareErr: Option<Error>): (Outcome<Option<Error>>, Db)
  {
    if execErr.Some? then (Returned(execErr), s)
    else
      var s1 := s.(executed := s.executed + [ddl]);
      if prepareErr.Some? then (Returned(prepareErr), s1)
      else (Returned(None), s1.(statements := s1.statements[t := Insert(t.name, Headers(t))]))
  }

  /** The whole of `register` on the database: nothing for a type seen before (`known`). */
  ghost function Registration(s: Db, known: bool, t: StructType, tempName: Result<string>, openErr: Option<Error>,
                              execErr: Option<Error>, prepareErr: Option<Error>): (Outcome<Option<Error>>, Db)
  {
    if known then (Returned(None), s) else Prepared(s, t, tempName, openErr, execErr, prepareErr)
  }

  /** The new-type half of `register`, from the state `s` before it. */
  ghost function Prepared(s: Db, t: StructType, tempName: Result<string>, openErr: Option<Error>,
                          execErr: Option<Error>, prepareErr: Option<Error>): (Outcome<Option<Error>>, Db)
  {
    match Opened(s, tempName, openErr)
    case Err(e) => (Returned(Some(e)), s)
    case Ok(s1) => Defined(s1, t, execErr, prepareErr)
  }

  /** Preparing a type keeps an open database and its file, opens one only on success of the
      name and the open, and caches the type's own insert and nothing else. */
  lemma PreparedOpensOnce(s: Db, t: StructType, tempName: Result<string>, openErr: Option<Error>,
                          execErr: Option<Error>, prepareErr: Option<Error>)
    ensures var (out, s') := Prepared(s, t, tempName, openErr, execErr, prepareErr);
      && (s.open ==> s'.open && s'.tmp == s.tmp && s'.staged == s.staged)
      && (!s.open && s'.open ==> tempName.Ok? && openErr.None? && s'.tmp == tempName.value)
      && (s'.statements == s.statements || (out == Returned(None) && s'.statements == s.statements[t := Insert(t.name, Headers(t))]))
      && (|s'.executed| == |s.executed| || s'.executed == s.executed + [DDL(t.name, Headers(t), Kinds(t), Tags(t)).value])
      && (out == Returned(None) <==>
            (tempName.Ok? || s.open) && (openErr.None? || s.open) && execErr.None? && prepareErr.None?
            && DDL(t.name, Headers(t), Kinds(t), Tags(t)).Returned?)
      && (out == Returned(None) ==> s'.statements == s.statements[t := Insert(t.name, Headers(t))])
  {
  }

  class SQLiteWriter {
    const base: Base
    var tmpFilename: string
    const dstFilename: string
    /** The prepared INSERT per type, by its text. */
    var insertByType: map<StructType, string>
    /** Whether the database has been opened (`db != nil`). */
    var dbOpen: bool
    /** The DDL the database has executed, in order. */
    var executed: seq<string>
    /** The inserts the database has executed: the statement and the record it was run for. */
    var inserted: seq<(string, Record)>
    /** The types whose statement has been closed, and whether the database has been closed. */
    var released: set<StructType>
    var dbClosed: bool

    /** Statements exist only for registered types and only once the database is open, and each
        is the insert of its own type. */
    ghost predicate Valid()
      reads this, base
    {
      base.Valid() && StatementsWithin(base.Registered())
    }

    /** Statements exist only for types of `registered` and only once the database is open, and
        each is the insert of its own type. */
    ghost predicate StatementsWithin(registered: set<StructType>)
      reads this
    {
      && insertByType.Keys <= registered
      && StatementsFit()
      && (!dbOpen ==> insertByType == map[] && executed == [] && inserted == [])
    }

    /** Each cached statement is the insert of its type. */
    predicate StatementsFit()
      reads this
    {
      forall t {:trigger insertByType[t]} :: t in insertByType ==> insertByType[t] == Insert(t.name, Headers(t))
    }

    /** The database state, together with the staged files. */
    ghost function State(fs: FileSystem): Db
      reads this, fs
    {
      Db(dbOpen, tmpFilename, fs.staged, executed, insertByType)
    }

    /** `NewSQLiteWriter(filename)`: the destination is always `filename + ".sqlite"`. */
    constructor (filename: string)
      ensures Valid() && dstFilename == filename + ".sqlite"
      ensures !dbOpen && insertByType == map[] && executed == [] && inserted == [] && base.Registered() == {}
      ensures released == {} && !dbClosed
      ensures fresh(base)
    {
      base := new Base();
      tmpFilename := "";
      dstFilename := filename + ".sqlite";
      insertByType := map[];
      dbOpen := false;
      executed := [];
      inserted := [];
      released := {};
      dbClosed := false;
    }

    /** `SQLiteWriter.register`: registers the type, and for a newly registered type only opens
        the database when it is not open yet, executes the type's DDL and caches its prepared
        insert. The temporary name, and the outcomes of opening, executing and preparing, are
        given. */
    method Register(x: Record, fs: FileSystem, tempName: Result<string>, openErr: Option<Error>,
                    execErr: Option<Error>, prepareErr: Option<Error>) returns (out: Outcome<Option<Error>>)
      requires Valid() && P.WellFormed(x)
      modifies this, base, fs
      ensures Valid()
      ensures base.Registered() == old(base.Registered()) + {P.TypeOf(x)}
      ensures fs.published == old(fs.published) && inserted == old(inserted)
      ensures released == old(released) && dbClosed == old(dbClosed)
      ensures (out, State(fs)) == Registration(old(State(fs)), P.TypeOf(x) in old(base.Registered()), P.TypeOf(x),
                                               tempName, openErr, execErr, prepareErr)
    {
      var t, isNew := base.Register(x);
      if !isNew {
        return Returned(None);
      }
      ColumnsAlign(t);
      out := Prepare(t, base.headersByType[t], base.typesByType[t], base.tagsByType[t], base.Registered(), fs,
                     tempName, openErr, execErr, prepareErr);
    }

    /** The new-type half of `register`, on the cached columns of the type. */
    method Prepare(t: StructType, hdrs: seq<string>, typs: seq<Kind>, tags: seq<string>, ghost registered: set<StructType>,
                   fs: FileSystem, tempName: Result<string>, openErr: Option<Error>, execErr: Option<Error>, prepareErr: Option<Error>)
      returns (out: Outcome<Option<Error>>)
      requires hdrs == Headers(t) && typs == Kinds(t) && tags == Tags(t)
      requires StatementsWithin(registered) && t in registered
      modifies this, fs
      ensures StatementsWithin(registered)
      ensures fs.published == old(fs.published) && inserted == old(inserted)
      ensures released == old(released) && dbClosed == old(dbClosed)
      ensures (out, State(fs)) == Prepared(old(State(fs)), t, tempName, openErr, execErr, prepareErr)
    {
      var err := Open(fs, tempName, openErr);
      if err.Some? {
        return Returned(err);
      }
      out := Define(t, hdrs, typs, tags, registered, fs, execErr, prepareErr);
    }

    /** Lazy opening of the database. */
    method Open(fs: FileSystem, tempName: Result<string>, openErr: Option<Error>) returns (err: Option<Error>)
      modifies this, fs
      ensures match Opened(old(State(fs)), tempName, openErr)
        case Err(e) => err == Some(e) && State(fs) == old(State(fs))
        case Ok(s1) => err == None && State(fs) == s1
      ensures fs.published == old(fs.published) && inserted == old(inserted)
      ensures released == old(released) && dbClosed == old(dbClosed)
    {
      if !dbOpen {
        if tempName.Err? {
          return Some(tempName.error);
        }
        if openErr.Some? {
          return openErr;
        }
        dbOpen := true;
        tmpFilename := tempName.value;
        fs.staged := fs.staged + {tempName.value};
      }
      return None;
    }

    /** Table creation and insert preparation on the open database. */
    method Define(t: StructType, hdrs: seq<string>, typs: seq<Kind>, tags: seq<string>, ghost registered: set<StructType>,
                  fs: FileSystem, execErr: Option<Error>, prepareErr: Option<Error>) returns (out: Outcome<Option<Error>>)
      requires hdrs == Headers(t) && typs == Kinds(t) && tags == Tags(t)
      requires insertByType.Keys <= registered && t in registered
      requires StatementsFit() && dbOpen
      modifies this
      ensures StatementsFit() && dbOpen
      ensures insertByType.Keys <= registered
      ensures inserted == old(inserted) && released == old(released) && dbClosed == old(dbClosed)
      ensures (out, State(fs)) == Defined(old(State(fs)), t, execErr, prepareErr)
    {
      var ddl := CreateDDL(t.name, hdrs, typs, tags);
      if ddl.Panicked? {
        return Panicked(ddl.message);
      }
      out := Install(t, hdrs, ddl.value, registered, fs, execErr, prepareErr);
    }

    /** Executes the DDL and prepares the insert. */
    method Install(t: StructType, hdrs: seq<string>, ddl: string, ghost registered: set<StructType>, fs: FileSystem,
                   execErr: Option<Error>, prepareErr: Option<Error>) returns (out: Outcome<Option<Error>>)
      requires hdrs == Headers(t) && StatementsFit() && dbOpen
      requires insertByType.Keys <= registered && t in registered
      modifies this
      ensures StatementsFit() && dbOpen
      ensures insertByType.Keys <= registered
      ensures inserted == old(inserted) && released == old(released) && dbClosed == old(dbClosed)
      ensures (out, State(fs)) == Installed(old(State(fs)), t, ddl, execErr, prepareErr)
    {
      if execErr.Some? {
        return Returned(execErr);
      }
      executed := executed + [ddl];
      var insert := CreateInsert(t.name, hdrs);
      if prepareErr.Some? {
        return Returned(prepareErr);
      }
      insertByType := insertByType[t := insert];
      return Returned(None);
    }

    /** `SQLiteWriter.Write`: registers the type, then runs its cached insert for the record, whose
        outcome is `insertErr`. An error or panic from `register` comes first; a type whose insert
        was never prepared has a nil statement, and running it panics. */
    method Write(x: Record, fs: FileSystem, tempName: Result<string>, openErr: Option<Error>,
                 execErr: Option<Error>, prepareErr: Option<Error>, insertErr: Option<Error>)
      returns (out: Outcome<Option<Error>>)
      requires Valid() && P.WellFormed(x)
      modifies this, base, fs
      ensures Valid()
      ensures base.Registered() == old(base.Registered()) + {P.TypeOf(x)}
      ensures fs.published == old(fs.published)
      ensures var (r, s) := Registration(old(State(fs)), P.TypeOf(x) in old(base.Registered()), P.TypeOf(x),
                                         tempName, openErr, execErr, prepareErr);
        && State(fs) == s
        && (r != Returned(None) ==> out == r && inserted == old(inserted))
        && (r == Returned(None) ==> Inserted(x, s.statements, old(inserted), inserted, insertErr, out))
    {
      var r := Register(x, fs, tempName, openErr, execErr, prepareErr);
      if r != Returned(None) {
        return r;
      }
      out := Run(x, insertErr);
    }

    /** What running the record's insert does: the arguments are built first, and their panic
        comes before anything else; then a type without a statement panics, and otherwise the
        insert is run and its outcome returned, the record being stored only on success. */
    ghost predicate Inserted(x: Record, stmts: map<StructType, string>, before: seq<(string, Record)>,
                             after: seq<(string, Record)>, insertErr: Option<Error>, out: Outcome<Option<Error>>)
      requires P.WellFormed(x)
    {
      var t := P.TypeOf(x);
      var args := ExcelValues(x);
      if args.Panicked? then out == Panicked(args.message) && after == before
      else if t !in stmts then out == Panicked(NilDereference) && after == before
      else out == Returned(insertErr) && after == before + (if insertErr.None? then [(stmts[t], x)] else [])
    }

    /** The part of `Write` after `register`. */
    method Run(x: Record, insertErr: Option<Error>) returns (out: Outcome<Option<Error>>)
      requires P.WellFormed(x) && (!dbOpen ==> insertByType == map[])
      modifies this
      ensures Inserted(x, insertByType, old(inserted), inserted, insertErr, out)
      ensures insertByType == old(insertByType) && executed == old(executed) && dbOpen == old(dbOpen)
      ensures tmpFilename == old(tmpFilename) && released == old(released) && dbClosed == old(dbClosed)
    {
      var t := P.BaseType(x.typ).st;
      // The arguments of `stmt.Exec` are evaluated before the call on a possibly nil statement.
      var args := ExcelValuesFrom(x);
      if args.Panicked? {
        return Panicked(args.message);
      }
      if t !in insertByType {
        return Panicked(NilDereference);
      }
      var stmt := insertByType[t];
      if insertErr.None? {
        inserted := inserted + [(stmt, x)];
      }
      return Returned(insertErr);
    }

    /** `SQLiteWriter.close`: closes every prepared statement, in no fixed order and even after a
        failure, then the database, which panics when it was never opened. Returns nil iff every
        close succeeded; otherwise the database's error, or when that one succeeded, the error
        of some failing statement. */
    method Release(stmtErrs: map<StructType, Option<Error>>, dbErr: Option<Error>) returns (out: Outcome<Option<Error>>)
      requires insertByType.Keys <= stmtErrs.Keys
      modifies this
      ensures released == old(released) + insertByType.Keys
      ensures insertByType == old(insertByType) && executed == old(executed) && inserted == old(inserted)
      ensures dbOpen == old(dbOpen) && tmpFilename == old(tmpFilename)
      ensures out.Panicked? <==> !dbOpen
      ensures out.Panicked? ==> out.message == NilDereference && dbClosed == old(dbClosed)
      ensures out.Returned? ==> dbClosed
      ensures out.Returned? ==>
        (out.value.None? <==> dbErr.None? && forall t :: t in insertByType ==> stmtErrs[t].None?)
      ensures out.Returned? && out.value.Some? ==>
        out.value == dbErr || (dbErr.None? && exists t :: t in insertByType && out.value == stmtErrs[t])
    {
      var rerr := CloseStatements(insertByType.Keys, stmtErrs);
      released := released + insertByType.Keys;
      if !dbOpen {
        return Panicked(NilDereference);
      }
      dbClosed := true;
      if dbErr.Some? {
        rerr := dbErr;
      }
      return Returned(rerr);
    }

    /** The loop of `close` over the statements: each failing close overwrites the error kept so
        far. */
    static method CloseStatements(keys: set<StructType>, stmtErrs: map<StructType, Option<Error>>) returns (rerr: Option<Error>)
      requires keys <= stmtErrs.Keys
      ensures rerr.None? <==> forall t :: t in keys ==> stmtErrs[t].None?
      ensures rerr.Some? ==> exists t :: t in keys && rerr == stmtErrs[t]
    {
      rerr := None;
      var todo := keys;
      ghost var done: set<StructType> := {};
      while todo != {}
        invariant todo <= keys && done == keys - todo
        invariant rerr.None? <==> forall t :: t in done ==> stmtErrs[t].None?
        invariant rerr.Some? ==> exists t :: t in done && rerr == stmtErrs[t]
        decreases |todo|
      {
        var t :| t in todo;
        var cerr := stmtErrs[t];
        if cerr.Some? {
          rerr := cerr;
        }
        RemoveOne(keys, todo, t);
        todo := todo - {t};
        done := done + {t};
      }
    }

    /** `SQLiteWriter.Close`: closes statements and database, then moves the temporary file to the
        destination even when closing failed. Returns nil iff every step succeeded; otherwise the
        rename's error, or when that one succeeded, the error `close` reported. */
    method Close(fs: FileSystem, stmtErrs: map<StructType, Option<Error>>, dbErr: Option<Error>,
                 renameErr: Option<Error>) returns (out: Outcome<Option<Error>>)
      requires insertByType.Keys <= stmtErrs.Keys
      requires dbOpen && renameErr.None? ==> tmpFilename in fs.staged
      modifies this, fs
      ensures released == old(released) + insertByType.Keys && insertByType == old(insertByType)
      ensures out.Panicked? <==> !dbOpen
      ensures !dbOpen ==> out == Panicked(NilDereference) && fs.staged == old(fs.staged) && fs.published == old(fs.published)
      ensures dbOpen ==> dbClosed
      ensures dbOpen ==>
        && fs.staged == old(fs.staged) - (if renameErr.None? then {tmpFilename} else {})
        && fs.published == old(fs.published) + (if renameErr.None? then {dstFilename} else {})
      ensures out.Returned? ==>
        (out.value.None? <==> renameErr.None? && dbErr.None? && forall t :: t in insertByType ==> stmtErrs[t].None?)
      ensures out.Returned? && out.value.Some? ==>
        out.value == renameErr
        || (renameErr.None? && out.value == dbErr)
        || (renameErr.None? && dbErr.None? && exists t :: t in insertByType && out.value == stmtErrs[t])
    {
      var r := Release(stmtErrs, dbErr);
      if r.Panicked? {
        return r;
      }
      var rerr := r.value;
      var err := fs.Rename(tmpFilename, dstFilename, renameErr);
      if err.Some? {
        rerr := err;
      }
      return Returned(rerr);
    }

    /** `SQLiteWriter.Cancel`: closes statements and database, then removes the temporary file; the
        destination is never published. Returns nil iff every step succeeded; otherwise the
        removal's error, or when that one succeeded, the error `close` reported. */
    method Cancel(fs: FileSystem, stmtErrs: map<StructType, Option<Error>>, dbErr: Option<Error>,
                  removeErr: Option<Error>) returns (out: Outcome<Option<Error>>)
      requires insertByType.Keys <= stmtErrs.Keys
      requires dbOpen && removeErr.None? ==> tmpFilename in fs.staged
      modifies this, fs
      ensures released == old(released) + insertByType.Keys && insertByType == old(insertByType)
      ensures fs.published == old(fs.published)
      ensures out.Panicked? <==> !dbOpen
      ensures !dbOpen ==> out == Panicked(NilDereference) && fs.staged == old(fs.staged)
      ensures dbOpen ==> dbClosed && fs.staged == old(fs.staged) - (if removeErr.None? then {tmpFilename} else {})
      ensures out.Returned? ==>
        (out.value.None? <==> removeErr.None? && dbErr.None? && forall t :: t in insertByType ==> stmtErrs[t].None?)
      ensures out.Returned? && out.value.Some? ==>
        out.value == removeErr
        || (removeErr.None? && out.value == dbErr)
        || (removeErr.None? && dbErr.None? && exists t :: t in insertByType && out.value == stmtErrs[t])
    {
      var r := Release(stmtErrs, dbErr);
      if r.Panicked? {
        return r;
      }
      var rerr := r.value;
      var err := fs.Remove(tmpFilename, removeErr);
      if err.Some? {
        rerr := err;
      }
      return Returned(rerr);
    }
  }
}
