# peanut, modelled in Dafny

peanut writes Go structs as records to files. Every writer has the same three calls: `Write(x)`,
`Close()` and `Cancel()`. A struct field takes part when it is exported and carries a `peanut`
tag. The first comma-separated segment of that tag labels the column. The second segment, when
it is `pk`, marks the column as part of the primary key in the SQLite writer.

Each writer embeds `base`, a schema cache keyed by struct type. On the first sight of a type
it records the headers, kinds and tags of the visited fields. On every later sight it changes
nothing.

The writers:

- **CSV, JSON Lines.** One temporary file per record type. `Close` flushes, chmods and closes
  each file, then renames it to `prefix + TypeName + suffix + ".csv"` (or `".jsonl"`). `Cancel`
  closes each file and removes it.
- **SQLite.** One temporary database. Each new type gets a `CREATE TABLE` and a prepared
  `INSERT OR IGNORE`. `Close` closes the statements and the database, then renames the file to
  `filename + ".sqlite"`. `Cancel` removes it.
- **Log.** Prints one line per record.
- **Mock.** Counts calls and captures headers and rows in memory.
- **Discard.** Does nothing.
- **Multi.** Forwards each call to a list of writers.

The SQLite writer draws its temporary file name with `randomTempFilename`. It renders a 32-bit
linear congruential generator as nine digits and tries up to 10000 candidates.

The model has one module per Go file, plus `Records` (shared values) and `Decimal` (base-10
rendering and its inverse). A Go object whose fields are updated in place is a Dafny `class`:
the base, each writer, the logger, the generator state and the file system. Anything the
program gets from outside is a parameter of the model:

- the file names `ioutil.TempFile` creates;
- the errors of flush, chmod, close, rename, remove, exec, prepare and encode;
- what `os.Stat` reports;
- the wall clock behind `reseed`;
- the temporary name the SQLite writer opens its database on: `Sqlite.SQLiteWriter.Register`
  takes it as given rather than drawing it from `RandFilename.TempNames`.

A panic is an explicit outcome, `Panicked(message)`. Examples: an unsupported kind, a nil
statement, a nil database. Iteration over a Go map is an arbitrary choice of the next key, so
"the last error" of such a loop becomes "the error of some failing element".

Where the source does not compile as written, the model takes these decisions:

- The CSV writer's `register` reads `w.types` and `w.typeHeaders`, which `base` does not have.
  They are modelled as the cached headers of the newly registered type.
- `stringValues` is declared in both `peanut.go` and `log_writer.go`. `stringValuesAsMap` is
  declared in both `peanut.go` and `mock_writer.go`. `mapValues` is declared in both
  `peanut.go` and `jsonl_writer.go`. Both versions are modelled, in the module of their file.
  The CSV writer uses the `%v` version from `peanut.go` (`Peanut.Shown`). The log, mock and
  JSON Lines writers use the version in their own file.
- The log writer embeds a `writer` type that is not part of this model. It is modelled as
  `base`.

## Model

| member | source | states |
|---|---|---|
| Records.LastErrorSpec | multi_writer.go:25-34 | keeping every non-nil error in one variable leaves nil iff all results are nil, and otherwise the last non-nil result |
| Records.LastErrorSnoc | multi_writer.go:27-31 | one more result overwrites the kept error iff it is non-nil |
| Decimal.FormatNat | mock_writer.go:91-100 | `FormatUint(_, 10)` gives at least one digit, with no leading zero except for 0 itself |
| Decimal.ValueOfFormatNat | mock_writer.go:91-100 | reading back the base-10 digits of a natural number gives the number |
| Decimal.FormatNatLength | rand_filename.go:37 | a number between 10^(k-1) and 10^k renders to exactly k digits |
| Decimal.FormatIntRoundTrip | log_writer.go:78 | `strconv.Itoa` / `FormatInt(_, 10)` is injective: parsing its text gives the integer back |
| Peanut.Split | peanut.go:160 | `strings.Split` never returns an empty list |
| Peanut.SplitJoin | peanut.go:160 | joining the pieces of a split gives the text back, and no piece holds the separator |
| Peanut.SplitAtFirst | peanut.go:164 | at the first separator, the first piece is the text before it and the rest are the pieces after it |
| Peanut.SplitWithoutSeparator | peanut.go:160 | a text without the separator splits into itself |
| Peanut.FirstTagValueSpec | peanut.go:159-161 | the label is the longest comma-free prefix of the tag |
| Peanut.SecondTagValueSpec | peanut.go:163-169 | the second segment is "" without a comma, otherwise the label of the text after the first comma |
| Peanut.LabelAndPkTags | peanut.go:159-169 | for a comma-free label `l`, the tag `l` has label `l` and no second segment, and the tag `l,pk` has label `l` and second segment `pk` |
| Peanut.VisitedUpTo | peanut.go:36-54 | every visited position is one of the fields walked so far |
| Peanut.VisitedUpToExact | peanut.go:36-54 | exactly the positions of tagged exported fields are visited, each once, in increasing order |
| Peanut.Schema | peanut.go:23-55 | one schema entry per visited position |
| Peanut.SchemaIsIncludedFields | peanut.go:36-54 | the schema is exactly the tagged exported fields, in declaration order |
| Peanut.EmptySchema | peanut.go:42-51 | a type without tagged exported fields has an empty schema |
| Peanut.BaseTypeStripsOneLevel | peanut.go:57-64 | a struct and a pointer to it have the same base type; a pointer to a pointer keeps one level |
| Peanut.SchemaValues | peanut.go:107-124 | one (field, value) pair per schema entry, the field being that entry |
| Peanut.SchemaValuesAreFieldValues | peanut.go:121-123 | each visited value is the record's value of that very field, of that field's kind |
| Peanut.ReflectStructFields | peanut.go:23-55 | the walk hands the callback exactly the schema, in order |
| Peanut.ReflectStructValues | peanut.go:97-128 | the value walk visits the same fields in the same order as the type walk, with their values |
| Peanut.AllFieldsSupportedKinds | peanut.go:66-95 | nil iff every visited kind is in the 14-kind table; otherwise the error names the first unsupported field |
| Peanut.StringValues | peanut.go:130-137 | one `%v` rendering per visited field, in schema order |
| Peanut.FirstUnhandled | log_writer.go:73-83 | the first field that is not a string or int of the plain `string`/`int` type (every earlier one is), or none |
| Peanut.LabelMapKeys | peanut.go:139-147 | the keys of a label map are exactly the labels of its pairs |
| Peanut.LabelMapValues | peanut.go:149-157 | every entry of a label map comes from one of its pairs |
| Peanut.LabelMapStep | peanut.go:144 | one more pair overwrites its label |
| Peanut.LabelMapLastWins | peanut.go:142-144 | a label holds the value of the last field with that label |
| Peanut.LabelledValues | peanut.go:141-145 | one (label, value) pair per visited field |
| Peanut.Rendered | peanut.go:144 | each pair keeps its label and gets the `%v` rendering of its value |
| Peanut.StringValuesAsMap | peanut.go:139-147 | the map is the label map of the `%v` renderings, later fields overwriting earlier ones |
| Peanut.MapValues | peanut.go:149-157 | the map is the label map of the raw values |
| BaseWriter.Headers | base_writer.go:37-42 | one header per visited field |
| BaseWriter.Kinds | base_writer.go:37-42 | one kind per visited field |
| BaseWriter.Tags | base_writer.go:37-42 | one tag per visited field |
| BaseWriter.ColumnsAlign | base_writer.go:37-46 | the three cached lists have equal length, and each header is the first segment of the tag at its position |
| BaseWriter.ColumnsOfVisited | base_writer.go:33-46 | lists built by the callback are exactly the type's headers, kinds and tags |
| BaseWriter.CollectColumns | base_writer.go:37-42 | the callback appends each visited field's label, kind and tag |
| BaseWriter.ConsistentInsert | base_writer.go:44-46 | caching a type's own columns keeps the three maps consistent |
| BaseWriter.Base.constructor | base_writer.go:7-12 | nil maps, nothing registered, not closed |
| BaseWriter.Base.Register | base_writer.go:18-48 | new iff the type was not registered; a new type caches its columns; an old one changes nothing |
| BaseWriter.Base.Cache | base_writer.go:33-47 | the new type's headers, kinds and tags are stored under it |
| MultiWriter.MultiWriter.constructor | multi_writer.go:11-13 | the writer holds the given writers |
| MultiWriter.MultiWriter.Write | multi_writer.go:15-23 | nil iff every writer returned nil; otherwise the first error, and no writer after the failing one is called |
| MultiWriter.MultiWriter.Close | multi_writer.go:25-34 | every writer is called; nil iff all returned nil, else the last error |
| MultiWriter.MultiWriter.Cancel | multi_writer.go:36-45 | every writer is called; nil iff all returned nil, else the last error |
| MultiWriter.MultiWriter.LastOfAll | multi_writer.go:27-33 | the shared loop calls every writer and keeps the last non-nil error |
| DiscardWriter.DiscardWriter.Write | discard_writer.go:9 | nil for every record |
| DiscardWriter.DiscardWriter.Close | discard_writer.go:12 | nil |
| DiscardWriter.DiscardWriter.Cancel | discard_writer.go:15 | nil |
| DiscardWriter.WritesAndClose | peanut_test.go:31-43 | writing any records and then closing returns nil at every step |
| Mock.MockRenderIsSprint | mock_writer.go:74-104 | renders exactly the supported kinds other than float32 whose declared type is the kind's own, as `%v`, integers in base 10; float32 and named types fail the type assertion with its message; other kinds panic "Unknown type" |
| Mock.FirstPanicSpec | mock_writer.go:72-105 | nil iff every field renders, otherwise the panic of the first field that does not |
| Mock.FirstPanicStep | mock_writer.go:72-105 | one more field keeps an earlier panic, else adds its own |
| Mock.FirstPanicPrefix | mock_writer.go:72-105 | a panic among the first fields is the panic of the whole walk |
| Mock.StringValuesAsMap | mock_writer.go:70-107 | the first field's panic, or else the label map of the renderings |
| Mock.MockWriter.constructor | mock_writer.go:13-21 | no base, nothing captured, no calls counted; the writer can be written to at once |
| Mock.MockWriter.MakeOnce | mock_writer.go:25-29 | the base and empty capture maps are made on the first call only |
| Mock.MockWriter.Register | mock_writer.go:23-37 | registers the type; the header list is captured under its name only when the type is new |
| Mock.MockWriter.ShowHeaders | mock_writer.go:35 | the new type's headers are stored under its name |
| Mock.MockWriter.Write | mock_writer.go:40-56 | counts the call, registers, and appends the row under the type name unless capture is off or the row panics |
| Mock.MockWriter.Capture | mock_writer.go:47-55 | nothing is captured when capture is disabled for the name; otherwise the row is appended or the panic returned |
| Mock.MockWriter.Close | mock_writer.go:59-62 | counts the call, changes nothing else, returns nil; the writer stays usable |
| Mock.MockWriter.Cancel | mock_writer.go:65-68 | counts the call, changes nothing else, returns nil; the writer stays usable |
| Mock.CountCalls | mock_writer_test.go:53-74 | a fresh writer closed, cancelled and then written (it stays usable after both) counts one call of each |
| Log.Logger.constructor | log_writer.go:26 | the logger holds its output, prefix and flags, and has printed nothing |
| Log.Logger.Println | log_writer.go:53 | exactly one more line, holding the message |
| Log.Renderings | log_writer.go:71-85 | values render iff every field is a plain `string` or `int` (as text, the int in base 10); otherwise the first other field's panic: the failed type assertion for a named string or int type, "Unknown type" for other kinds |
| Log.RenderingsAreDecimal | log_writer.go:74-78 | a string field logs its own text, and an int field logs base-10 text that reads back as the same integer |
| Log.StringValues | log_writer.go:71-85 | the walk's result is the renderings of the record's visited fields |
| Log.RenderAll | log_writer.go:73-83 | the callback loop renders each field in order or stops at the first panic |
| Log.SegmentsStep | log_writer.go:46-51 | each field appends its own segment |
| Log.LogLineIsOneLine | log_writer.go:42-51 | the message has no newline unless the name, a label or a value has one |
| Log.SegmentsHaveNoNewline | log_writer.go:46-51 | the field segments add no newline |
| Log.LogLineFieldOrder | log_writer.go:44-51 | fields appear in field order, each segment directly after the earlier ones |
| Log.FormatLine | log_writer.go:42-51 | the loop builds `<Name>` followed by ` label:` and ` value` for a non-empty value |
| Log.AppendField | log_writer.go:47-50 | one field adds ` label:`, and ` value` only when the value is non-empty |
| Log.LineOf | log_writer.go:39-51 | panics iff the renderings panic; otherwise the line from the cached headers and the renderings |
| Log.LogWriter.constructor | log_writer.go:16-20 | the writer keeps the given logger and verbosity, nothing registered, with a base of its own |
| Log.LogWriter.Initialise | log_writer.go:22-31 | registers the type; installs the default stderr date/time logger only on the first call with no logger; returns nil |
| Log.LogWriter.Write | log_writer.go:34-55 | registers, then prints exactly the record's line, or panics with nothing printed |
| Log.LogWriter.Emit | log_writer.go:39-54 | builds the message from the cached headers and prints it |
| Log.LogWriter.Line | log_writer.go:39-51 | the message of the record, or its panic |
| Log.LogWriter.Close | log_writer.go:57-62 | logs `Called LogWriter.Close` iff verbose (a nil logger then panics); returns nil |
| Log.LogWriter.Cancel | log_writer.go:64-69 | logs `Called LogWriter.Cancel` iff verbose (a nil logger then panics); returns nil |
| Files.FileSystem.CreateTemp | csv_writer.go:81 | a created temporary file is one that did not exist, and it is then staged; a failure stages nothing |
| Files.FileSystem.Rename | csv_writer.go:161 | succeeds only on a staged file; on success the temporary file is gone and the final name exists |
| Files.FileSystem.Remove | csv_writer.go:187 | succeeds only on a staged file; on success the temporary file is gone; final names are untouched |
| Files.StepsError | csv_writer.go:118-152 | nil iff every step before the rename succeeded, else one of their errors |
| Files.CloseError | csv_writer.go:154-169 | nil iff the file is committed; otherwise an error of a step before the rename, or the rename's |
| Files.CancelError | csv_writer.go:179-191 | nil iff close and remove both succeed; otherwise one of their errors |
| Files.CloseStep | csv_writer.go:117-170 | closing one more file publishes its name exactly when it commits |
| Files.CancelStep | csv_writer.go:178-192 | discarding one more file removes it exactly when the removal succeeds |
| Csv.CsvWriter.NewBuilder | csv_writer.go:79-88 | a new builder carries the type's final name, its temp file, and the header row |
| Csv.CsvWriter.constructor | csv_writer.go:50-58 | keeps prefix and suffix; no builders; nothing registered, with a base of its own |
| Csv.CsvWriter.Register | csv_writer.go:67-96 | an old type changes nothing; a new one stages a temp file and a builder, or returns the TempFile error or the header error |
| Csv.CsvWriter.Stage | csv_writer.go:79-95 | no builder when TempFile fails; otherwise the file is staged and the builder stored, and the header error returned |
| Csv.CsvWriter.Write | csv_writer.go:102-111 | registers, then appends the record's `%v` row to its type's builder, or returns the register error |
| Csv.CsvWriter.WriteRow | csv_writer.go:107-110 | the row is appended to its type's builder and the row error returned; a missing builder panics |
| Csv.CsvWriter.AppendRow | csv_writer.go:110 | exactly one more row in that builder, nothing else changes |
| Csv.CsvWriter.Close | csv_writer.go:115-172 | publishes exactly the files whose five steps succeed, a rename succeeding only on a staged file; nil iff all do, else the error of some failing file |
| Csv.CsvWriter.CloseBuilder | csv_writer.go:118-169 | the file is renamed only when flush, flush, chmod and close succeed; the error is the last failing step |
| Csv.CsvWriter.Cancel | csv_writer.go:176-194 | removes exactly the files whose removal succeeds, which only a staged file can; publishes nothing; nil iff all steps succeed |
| Csv.CsvWriter.DiscardBuilder | csv_writer.go:179-191 | closes and removes one file; a failure overwrites the kept error |
| Jsonl.JsonObject | jsonl_writer.go:105-120 | an object iff every field is a plain `string` or `int`; otherwise the first other field's panic: the failed type assertion for a named string or int type, "Unknown type" for other kinds |
| Jsonl.JsonObjectKeys | jsonl_writer.go:105-120 | the object's keys are exactly the type's headers |
| Jsonl.JsonObjectValues | jsonl_writer.go:109-114 | every value in the object is a string or an integer |
| Jsonl.MapValues | jsonl_writer.go:105-120 | the loop builds exactly that object, or panics where it does |
| Jsonl.JsonlWriter.constructor | jsonl_writer.go:51-59 | keeps prefix and suffix; no builders; nothing registered, with a base of its own |
| Jsonl.JsonlWriter.Register | jsonl_writer.go:68-89 | an old type changes nothing; a new one stages a temp file and a builder, or returns the TempFile error with no builder |
| Jsonl.JsonlWriter.Stage | jsonl_writer.go:77-88 | no builder when TempFile fails; otherwise the file is staged and the builder stored |
| Jsonl.JsonlWriter.Write | jsonl_writer.go:95-103 | registers, then encodes the record's object into its builder; a type whose TempFile failed before has no builder and panics |
| Jsonl.JsonlWriter.Encode | jsonl_writer.go:101-102 | a missing builder panics; an unhandled kind panics; otherwise the object is appended and the encode error returned |
| Jsonl.JsonlWriter.Close | jsonl_writer.go:124-175 | publishes exactly the files whose four steps succeed, a rename succeeding only on a staged file; nil iff all do, else the error of some failing file |
| Jsonl.JsonlWriter.CloseBuilder | jsonl_writer.go:127-173 | the file is renamed only when flush, chmod and close succeed; the error is the last failing step |
| Jsonl.JsonlWriter.Cancel | jsonl_writer.go:179-201 | removes exactly the files whose removal succeeds, which only a staged file can; publishes nothing; nil iff all steps succeed |
| Jsonl.JsonlWriter.DiscardBuilder | jsonl_writer.go:185-199 | closes and removes one file; a failure overwrites the kept error |
| Sqlite.JoinTextOneChar | sqlite_writer.go:145 | joining with a one-character text is the join that the tag split inverts |
| Sqlite.JoinSplit | sqlite_writer.go:145 | joining separator-free parts and splitting the result gives the parts back |
| Sqlite.PkIndices | sqlite_writer.go:119-123 | exactly the `pk` positions, each once, in field order |
| Sqlite.PrimaryKeys | sqlite_writer.go:119-123 | one primary-key header per `pk` position |
| Sqlite.PrimaryKeysStep | sqlite_writer.go:119-123 | one more field adds its header iff its second tag segment is `pk` |
| Sqlite.ColumnLines | sqlite_writer.go:98-117 | one column definition per field |
| Sqlite.DDLLinesShape | sqlite_writer.go:98-135 | one `\t<label> TEXT|INTEGER NOT NULL` line per field in order, and a PRIMARY KEY line iff some field is `pk` |
| Sqlite.DDL | sqlite_writer.go:84-139 | a statement iff every column is a string or an int |
| Sqlite.PrimaryKeyLine | sqlite_writer.go:126-132 | the PRIMARY KEY line lists exactly the `pk` headers, in field order, joined by `", "` |
| Sqlite.DDLOfType | sqlite_writer.go:84-139 | for a registered type: panics "Unknown type: <Name>" iff some field is neither string nor int; otherwise one column per visited field, under its label |
| Sqlite.CreateDDL | sqlite_writer.go:84-139 | the method builds exactly that statement, or that panic |
| Sqlite.DefineColumns | sqlite_writer.go:98-124 | the loop panics iff some kind is unsupported, otherwise it yields the column lines and the primary keys |
| Sqlite.Placeholders | sqlite_writer.go:147-150 | n placeholders, each `?` |
| Sqlite.InsertOfType | sqlite_writer.go:141-154 | the insert names the type's table; its column list splits into the headers and its value list into as many `?` |
| Sqlite.CreateInsert | sqlite_writer.go:141-154 | the method builds exactly that insert |
| Sqlite.FirstRejected | excel_writer.go:131-143 | the first visited field whose kind is neither string nor int, every earlier one being one of them, or none |
| Sqlite.ExcelValuesFitTable | excel_writer.go:131-143 | the insert arguments exist iff the type has a table definition, and then there is one per column, the record's value of that column's field; otherwise the panic is "Unknown type: <value>" of a rejected field |
| Sqlite.ExcelValuesFrom | excel_writer.go:131-143 | the callback loop yields exactly those arguments, or the panic of the first rejected field |
| Sqlite.PreparedOpensOnce | sqlite_writer.go:43-81 | an open database is kept; one opens only after a name is drawn and opened; on success exactly the type's insert is cached and its DDL executed |
| Sqlite.SQLiteWriter.constructor | sqlite_writer.go:27-34 | the destination is `filename + ".sqlite"`; no database, no statements, a base of its own |
| Sqlite.SQLiteWriter.Register | sqlite_writer.go:36-82 | an old type changes nothing; a new one opens the database if needed, creates its table and caches its insert, stopping at the first error or the DDL panic |
| Sqlite.SQLiteWriter.Prepare | sqlite_writer.go:43-81 | the new-type part of register, as above |
| Sqlite.SQLiteWriter.Open | sqlite_writer.go:44-58 | the database is opened lazily, on a freshly drawn temp name, or the draw or open error returned |
| Sqlite.SQLiteWriter.Define | sqlite_writer.go:62-81 | creates the table and prepares the insert, or panics in `createDDL` |
| Sqlite.SQLiteWriter.Install | sqlite_writer.go:66-79 | executes the DDL, then prepares and caches the insert, stopping at the first error |
| Sqlite.SQLiteWriter.Write | sqlite_writer.go:156-166 | a register error or panic comes first; then the insert arguments' "Unknown type" panic; then a type without a statement panics; otherwise the record is inserted and the insert error returned |
| Sqlite.SQLiteWriter.Run | sqlite_writer.go:163-165 | builds the insert arguments before the call, so their panic comes first; then a missing statement panics; otherwise runs the type's insert |
| Sqlite.SQLiteWriter.Release | sqlite_writer.go:187-213 | every statement is closed; panics iff the database was never opened; nil iff all closes succeed, else the database error or some statement's |
| Sqlite.SQLiteWriter.CloseStatements | sqlite_writer.go:192-205 | nil iff every statement closes, else some failing statement's error |
| Sqlite.SQLiteWriter.Close | sqlite_writer.go:168-185 | closes everything, then renames even after a close error; the rename error wins over close's |
| Sqlite.SQLiteWriter.Cancel | sqlite_writer.go:215-229 | closes everything, then removes the temp file; never publishes; the remove error wins over close's |
| RandFilename.Digits9Spec | rand_filename.go:37 | the rendering is exactly nine digits denoting the state modulo 10^9, with leading zeros kept |
| RandFilename.StatOf | rand_filename.go:46 | `os.Stat` never reports "already exists" |
| RandFilename.Search | rand_filename.go:41-57 | a returned name is accepted and comes from the final state; it gives up only with TooManyConflicts after 10000 - i conflicts; it reads the clock at least once per conflict past the tenth |
| RandFilename.SearchStopsAtFirstAccepted | rand_filename.go:44-55 | stops at the first candidate iff accepted, otherwise continues from the reseeded state with one more conflict |
| RandFilename.ReturnsCandidate | rand_filename.go:45 | a returned name is the directory joined with prefix, nine digits and suffix |
| RandFilename.IntendedReturnsFree | rand_filename.go:44-56 | with the intended check, a returned name does not exist, and failure means 10000 conflicts |
| RandFilename.AsWrittenStopsAtFirst | rand_filename.go:46-48 | as written, the first candidate is always returned, with no conflict |
| RandFilename.AsWrittenReturnsExisting | rand_filename.go:46-48 | as written, an existing first candidate is returned; the intended search does not return it |
| RandFilename.TempNames.constructor | rand_filename.go:21 | the generator starts at zero, with no clock reading |
| RandFilename.TempNames.Reseed | rand_filename.go:24-26 | the new state is the next clock reading |
| RandFilename.TempNames.NextRandom | rand_filename.go:28-38 | reseeds a zero state, advances `r*1664525 + 1013904223` mod 2^32, and returns nine digits of the new state |
| RandFilename.TempNames.Draw | rand_filename.go:45 | advances the generator once and names the candidate of the new state |
| RandFilename.TempNames.TryCandidates | rand_filename.go:43-56 | the loop returns exactly what the search specification returns and leaves the generator where it does |
| RandFilename.TempNames.RandomTempFilenameAsWritten | rand_filename.go:41-57 | `randomTempFilename` as written, against that specification with the `!os.IsExist` check |
| RandFilename.TempNames.RandomTempFilename | rand_filename.go:41-57 | the corrected `randomTempFilename`, against that specification with the not-exist check |

## Left out

- Reflection itself: a record is its struct type's field declarations plus one value per
  field. A value of the wrong kind, or a non-struct passed to `Write`, is excluded by
  `requires` (Go's `reflect` panics there).
- The concrete encodings: CSV quoting, JSON encoding, and SQLite's parsing and execution of the
  statements. Each is a sink whose error outcome is a parameter. Rows, objects and inserted
  records are kept as values.
- The arguments `excelValuesFrom` builds for the SQLite insert are computed, with their panic,
  but the model stores the record itself as what was inserted. The Excel writers are not part
  of this model.
- The durability steps (`Sync`, the file mode 0644) and the `log.Printf` of each error: only
  their outcomes and their order matter.
- Floating-point formatting: a float value carries its `%v` rendering.
- Unicode upper case beyond Latin-1 in `IsExported`.
- Peanut.StringValues: `%v` of a field whose named type has a `String()` or `Error()` method
  prints through that method; the model renders the underlying value, because methods of the
  record's field types are not modelled.
- Peanut.StringValuesAsMap: the same `String()` / `Error()` gap as `Peanut.StringValues`.
- Records.Sprint: the `%v` in the "Unknown type: %v" panics of the older extractors has the
  same `String()` / `Error()` gap.
- Sqlite.SQLiteWriter.Register: the temporary name is a parameter, so the existing name the
  as-written `randomTempFilename` can return (see Findings) is not carried into `sql.Open`.
- A file system whose step outcomes contradict it: a rename or removal succeeds only on a
  staged file, so `Close` and `Cancel` take outcomes that agree with the staged files, and
  closing after `Cancel` is modelled only with failing steps, as Go's closed files give. That
  two committing (or removing) builders have different temporary files is part of those
  agreeing outcomes, not a writer invariant: a created temporary file is new, but its name is
  free again once an earlier builder's file was renamed or removed.
- The order of Go map iteration: the close, cancel and statement-close loops pick their next
  key arbitrarily, so a contract names "the error of some failing element" and not the last
  one in an unknown order.
- `randmu` and concurrent use: every call is sequential. `reseed` reads a clock given as a
  function of the number of earlier readings, with the process id folded in.
- `os.TempDir` and `filepath.Join` beyond joining a clean directory with a file name.
- `os.Stat` errors other than "does not exist" (permissions, I/O), for which `RandFilename.StatOf`
  does not model a file system.
- `sql.Open` is modelled as creating the temporary file at once, and its error as a parameter.
- `base.closed` is never set by the source; it is kept and never changes. Writes after
  `Close` are not modelled.
- The timestamp the default logger puts before each line; `Log.Logger` keeps only messages.
- Csv.CsvWriter.Close: the buffered writer's two flushes and the csv writer's error are four
  given step outcomes; their content is not modelled.
- Jsonl.JsonlWriter.Write: the encoded text of the object is not modelled, only the object
  and the encoder's error.
- Sqlite.SQLiteWriter.Write: a constraint conflict swallowed by `INSERT OR IGNORE` is part of
  the given insert outcome; the table contents are not modelled.
- RandFilename.Search: gives a lower bound on the clock readings (one per conflict past the
  tenth), not the exact count.

## Findings

| source | as written | input that shows it | evidently intended | confidence | as-written member | corrected member |
|---|---|---|---|---|---|---|
| rand_filename.go:46-48 | the search stops at a name unless `os.IsExist(err)` holds for the error of `os.Stat`, which never reports "already exists", so the first candidate is always returned | a file system in which the first candidate name already exists | stop only when `os.IsNotExist(err)`, so a returned name is free | not executed | RandFilename.AsWrittenReturnsExisting | RandFilename.IntendedReturnsFree |
