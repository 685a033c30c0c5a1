/** The `import_data` management command
    (backend/records/management/commands/import_data.py): JSON items are
    normalised, their two date fields converted, turned into model rows and
    written in batches; failures are collected and summarised.

    The database is an append-only sink: the method returns the batches it
    handed to `bulk_create`. `parse_datetime` and the success or failure of
    a `bulk_create` call are parameters. */
module ImportData {
  import opened Wrappers
  import opened JsNumbers

  /** A decoded JSON value. Arrays and objects nested inside an item are
      only described by their length, which decides their truthiness. */
  datatype Json =
    | JNull
    | JBool(b: bool)
    | JNum(n: int)
    | JStr(s: string)
    | JArray(len: nat)
    | JObject(size: nat)

  /** Python truthiness of a decoded value. */
  predicate Truthy(v: Json) {
    match v
    case JNull => false
    case JBool(b) => b
    case JNum(n) => n != 0
    case JStr(s) => s != ""
    case JArray(len) => len > 0
    case JObject(size) => size > 0
  }

  /** An element of the top-level JSON list: an object, or anything else. */
  datatype Item = Object(fields: map<string, Json>) | NotObject

  /** What `json.load` produced from the file, or why it could not. */
  datatype Source = FileNotFound | InvalidJson | Loaded(items: seq<Item>)

  /** The result of `parse_datetime`: a timestamp, `None` for text that is
      not shaped like a date, or `ValueError` for a well-shaped invalid one. */
  datatype DateParse = Parsed(t: int) | NoMatch | Invalid

  /** A value of the processed item: the JSON value, or a converted date. */
  datatype Cell = J(v: Json) | Time(t: int)

  type Row = map<string, Cell>

  /** The exception raised while processing one item. */
  datatype Failure =
    | MissingKey(key: string)        // KeyError on `added` / `published`
    | NotText(key: string)           // `.replace` on a truthy non-string
    | BadDate(key: string)           // ValueError from `parse_datetime`
    | UnexpectedFields(keys: set<string>) // TypeError from the model constructor

  /** What an error entry records: an exception from processing the item,
      or a database error from the write its row triggered. */
  datatype ErrorKind = Raised(failure: Failure) | WriteFailed

  /** One entry of the error list: the item's raw `title` and the error. */
  datatype ErrorEntry = ErrorEntry(item: Json, error: ErrorKind)

  datatype LoadFailure = FileMissing | BadJson

  /** How the command ended. `Crashed` is an exception that escaped the
      command; the batches written before it stay written. */
  datatype Outcome =
    | NotLoaded(reason: LoadFailure)
    | Finished(batches: seq<seq<Row>>, successCount: nat, errors: seq<ErrorEntry>)
    | Crashed(batches: seq<seq<Row>>)

  const AddedKey: string := "added"
  const PublishedKey: string := "published"
  const TitleKey: string := "title"
  const Untitled: string := "Untitled"
  const DefaultBatchSize: int := 1000
  const ShownErrors: nat := 10

  /** The keyword arguments the model constructor accepts: its fields, the
      implicit `id` and the `pk` property. */
  const ModelKeys: set<string> := {
    "id", "pk", "end_year", "intensity", "sector", "topic", "insight", "url",
    "region", "start_year", "impact", "added", "published", "country",
    "relevance", "pestle", "source", "title", "likelihood"
  }

  /** Empty strings become `None`; every key and every other value stays. */
  function Normalise(fields: map<string, Json>): (row: Row)
    ensures row.Keys == fields.Keys
    ensures forall k :: k in row ==> row[k].J?
    ensures forall k :: k in row ==> row[k] != J(JStr(""))
  {
    map k | k in fields :: if fields[k] == JStr("") then J(JNull) else J(fields[k])
  }

  /** Normalisation touches exactly the empty strings. */
  lemma NormaliseChangesOnlyEmpty(fields: map<string, Json>, k: string)
    requires k in fields
    ensures Normalise(fields)[k] == J(fields[k]) <==> fields[k] != JStr("")
    ensures fields[k] == JStr("") ==> Normalise(fields)[k] == J(JNull)
  {
  }

  /** `s.replace(",", "")`. */
  function RemoveCommas(s: string): (r: string)
    ensures |r| <= |s|
    ensures forall i :: 0 <= i < |r| ==> r[i] != ','
    ensures multiset(r) == multiset(s)[',' := 0]
  {
    if |s| == 0 then ""
    else
      var init := RemoveCommas(s[..|s| - 1]);
      assert s == s[..|s| - 1] + [s[|s| - 1]];
      if s[|s| - 1] == ',' then init else init + [s[|s| - 1]]
  }

  /** Text without commas passes through unchanged, so removal is idempotent. */
  lemma {:induction false} RemoveCommasKeepsCommaFree(s: string)
    requires forall i :: 0 <= i < |s| ==> s[i] != ','
    ensures RemoveCommas(s) == s
  {
    if |s| > 0 {
      RemoveCommasKeepsCommaFree(s[..|s| - 1]);
      assert s == s[..|s| - 1] + [s[|s| - 1]];
    }
  }

  lemma RemoveCommasIdempotent(s: string)
    ensures RemoveCommas(RemoveCommas(s)) == RemoveCommas(s)
  {
    RemoveCommasKeepsCommaFree(RemoveCommas(s));
  }

  /** The guarded conversion of one date field: a missing key is a
      `KeyError`; a falsy value is left alone; a truthy string loses its
      commas and goes through `parse_datetime`; a truthy non-string has no
      `replace`. */
  function ConvertDate(row: Row, key: string, parse: string -> DateParse): (r: Option<Row>)
    ensures r.Some? ==> r.value.Keys == row.Keys
    ensures r.Some? ==> forall k :: k in row && k != key ==> r.value[k] == row[k]
    ensures key !in row ==> r.None?
    ensures key in row && row[key].J? && !Truthy(row[key].v) ==> r == Some(row)
    ensures key in row && row[key].J? && Truthy(row[key].v) && !row[key].v.JStr? ==> r.None?
    ensures key in row && row[key].J? && Truthy(row[key].v) && row[key].v.JStr? ==>
      (r.None? <==> parse(RemoveCommas(row[key].v.s)).Invalid?)
  {
    if key !in row then None
    else match row[key]
      case Time(_) => Some(row)
      case J(v) =>
        if !Truthy(v) then Some(row)
        else if !v.JStr? then None
        else match parse(RemoveCommas(v.s))
          case Parsed(t) => Some(row[key := Time(t)])
          case NoMatch => Some(row[key := J(JNull)])
          case Invalid => None
  }

  /** Why `ConvertDate` failed. */
  function DateFailure(row: Row, key: string, parse: string -> DateParse): Failure {
    if key !in row then MissingKey(key)
    else if row[key].J? && !row[key].v.JStr? then NotText(key)
    else BadDate(key)
  }

  /** The field holds a date string that `parse_datetime` accepts. */
  lemma ConvertDateParsed(row: Row, key: string, parse: string -> DateParse, s: string)
    requires key in row && row[key] == J(JStr(s)) && s != ""
    ensures parse(RemoveCommas(s)).Parsed? ==>
      ConvertDate(row, key, parse) == Some(row[key := Time(parse(RemoveCommas(s)).t)])
    ensures parse(RemoveCommas(s)).NoMatch? ==>
      ConvertDate(row, key, parse) == Some(row[key := J(JNull)])
    ensures parse(RemoveCommas(s)).Invalid? <==> ConvertDate(row, key, parse).None?
    ensures parse(RemoveCommas(s)).Invalid? ==> DateFailure(row, key, parse) == BadDate(key)
  {
  }

  /** What one raw date value of an item becomes, read off the item before
      normalisation: the cell stored for it, or the exception it raises. */
  datatype DateStep = Kept(cell: Cell) | Raise(failure: Failure)

  function DateOutcome(key: string, v: Json, parse: string -> DateParse): DateStep {
    if !Truthy(v) then Kept(J(if v == JStr("") then JNull else v))
    else if !v.JStr? then Raise(NotText(key))
    else match parse(RemoveCommas(v.s))
      case Parsed(t) => Kept(Time(t))
      case NoMatch => Kept(J(JNull))
      case Invalid => Raise(BadDate(key))
  }

  /** What processing one object yields: its row, or the exception. */
  datatype Processed = Built(row: Row) | Failed(failure: Failure)

  /** Normalise, convert `added` then `published`, then construct. */
  function Process(fields: map<string, Json>, parse: string -> DateParse): (p: Processed)
    ensures AddedKey !in fields ==> p == Failed(MissingKey(AddedKey))
    ensures AddedKey in fields && PublishedKey !in fields ==> p.Failed?
    ensures AddedKey in fields && PublishedKey in fields
            && !Truthy(fields[AddedKey]) && !Truthy(fields[PublishedKey]) && fields.Keys <= ModelKeys
            ==> p == Built(Normalise(fields))
    ensures p.Built? ==> p.row.Keys == fields.Keys
    ensures AddedKey in fields ==>
      var a := DateOutcome(AddedKey, fields[AddedKey], parse);
      a.Raise? ==> p == Failed(a.failure)
    ensures AddedKey in fields && PublishedKey !in fields ==>
      var a := DateOutcome(AddedKey, fields[AddedKey], parse);
      a.Kept? ==> p == Failed(MissingKey(PublishedKey))
    ensures AddedKey in fields && PublishedKey in fields ==>
      var a := DateOutcome(AddedKey, fields[AddedKey], parse);
      var b := DateOutcome(PublishedKey, fields[PublishedKey], parse);
      && (a.Kept? && b.Raise? ==> p == Failed(b.failure))
      && (a.Kept? && b.Kept? ==> (p.Built? <==> fields.Keys <= ModelKeys))
      && (p.Built? ==> p.row[AddedKey] == a.cell && p.row[PublishedKey] == b.cell)
  {
    var row := Normalise(fields);
    match ConvertDate(row, AddedKey, parse)
    case None => Failed(DateFailure(row, AddedKey, parse))
    case Some(row1) =>
      match ConvertDate(row1, PublishedKey, parse)
      case None => Failed(DateFailure(row1, PublishedKey, parse))
      case Some(row2) =>
        if row2.Keys <= ModelKeys then Built(row2)
        else Failed(UnexpectedFields(row2.Keys - ModelKeys))
  }

  /** A built row keeps the item's keys, all of which the model accepts,
      and every value but the two dates is the normalised one. */
  lemma ProcessProperties(fields: map<string, Json>, parse: string -> DateParse)
    ensures var p := Process(fields, parse);
      && (p.Built? ==> p.row.Keys == fields.Keys && fields.Keys <= ModelKeys)
      && (p.Built? ==> AddedKey in fields && PublishedKey in fields)
      && (p.Built? ==> forall k :: k in fields && k != AddedKey && k != PublishedKey ==>
            p.row[k] == Normalise(fields)[k])
      && (!(fields.Keys <= ModelKeys) ==> p.Failed?)
  {
  }

  /** Processing with a fixed `parse_datetime`. */
  function Processor(parse: string -> DateParse): map<string, Json> -> Processed {
    fields => Process(fields, parse)
  }

  /** `item.get("title", "Untitled")` on the raw item. */
  function Title(fields: map<string, Json>): Json {
    if TitleKey in fields then fields[TitleKey] else JStr(Untitled)
  }

  /** The rows of the objects that process without an exception, in order. */
  function GoodRows(items: seq<Item>, process: map<string, Json> -> Processed): seq<Row> {
    if |items| == 0 then []
    else
      var last := items[|items| - 1];
      GoodRows(items[..|items| - 1], process)
        + (if last.Object? && process(last.fields).Built? then [process(last.fields).row] else [])
  }

  /** The error entries of the objects that fail processing, in order. */
  function ProcessingErrors(items: seq<Item>, process: map<string, Json> -> Processed): seq<ErrorEntry> {
    if |items| == 0 then []
    else
      var last := items[|items| - 1];
      ProcessingErrors(items[..|items| - 1], process)
        + (if last.Object? && process(last.fields).Failed?
           then [ErrorEntry(Title(last.fields), Raised(process(last.fields).failure))] else [])
  }

  /** The error list without the entries of failed in-loop writes. */
  function WithoutWriteErrors(errors: seq<ErrorEntry>): (r: seq<ErrorEntry>)
    ensures |r| <= |errors|
  {
    if |errors| == 0 then []
    else
      var last := errors[|errors| - 1];
      assert errors == errors[..|errors| - 1] + [last];
      WithoutWriteErrors(errors[..|errors| - 1]) + (if last.error.WriteFailed? then [] else [last])
  }

  /** The entries kept are exactly those of processing failures. */
  lemma {:induction false} WithoutWriteErrorsMembers(errors: seq<ErrorEntry>, e: ErrorEntry)
    ensures e in WithoutWriteErrors(errors) <==> e in errors && !e.error.WriteFailed?
  {
    if |errors| > 0 {
      var init := errors[..|errors| - 1];
      assert errors == init + [errors[|errors| - 1]];
      WithoutWriteErrorsMembers(init, e);
    }
  }

  lemma WithoutWriteErrorsAppend(errors: seq<ErrorEntry>, e: ErrorEntry)
    ensures WithoutWriteErrors(errors + [e]) ==
      WithoutWriteErrors(errors) + (if e.error.WriteFailed? then [] else [e])
  {
    assert (errors + [e])[..|errors|] == errors;
  }

  /** The concatenation of the written batches. */
  function Flatten(batches: seq<seq<Row>>): (rows: seq<Row>)
    ensures batches == [] ==> rows == []
  {
    if |batches| == 0 then [] else Flatten(batches[..|batches| - 1]) + batches[|batches| - 1]
  }

  lemma FlattenAppend(batches: seq<seq<Row>>, b: seq<Row>)
    ensures Flatten(batches + [b]) == Flatten(batches) + b
  {
    assert (batches + [b])[..|batches|] == batches;
  }

  ghost predicate IsPrefix<T>(a: seq<T>, b: seq<T>) {
    |a| <= |b| && a == b[..|a|]
  }

  lemma PrefixOfPrefix<T>(a: seq<T>, p: seq<T>, b: seq<T>, c: seq<T>)
    requires a + p == b && IsPrefix(b, c)
    ensures IsPrefix(a, c)
  {
    assert a == b[..|a|];
  }

  /** The good rows of a prefix of the items lead the good rows of all. */
  lemma {:induction false} GoodRowsPrefix(items: seq<Item>, i: nat, process: map<string, Json> -> Processed)
    requires i <= |items|
    ensures IsPrefix(GoodRows(items[..i], process), GoodRows(items, process))
  {
    if i < |items| {
      var init := items[..|items| - 1];
      assert items[..i] == init[..i];
      GoodRowsPrefix(init, i, process);
    } else {
      assert items[..i] == items;
    }
  }

  /** A write of a batch never fails. */
  ghost predicate NeverFails(bulkFails: seq<Row> -> bool) {
    forall b :: !bulkFails(b)
  }

  /** The size that triggers a write: `len(records) >= batch_size` holds
      for every non-empty list once `batch_size` is below one. */
  function EffectiveBatchSize(batchSize: int): (n: int)
    ensures n >= 1 && n >= batchSize
    ensures batchSize >= 1 ==> n == batchSize
  {
    if batchSize < 1 then 1 else batchSize
  }

  /** The command's `handle`: a missing file or malformed JSON ends it
      before anything is written. */
  method Handle(source: Source, batchSize: int, parse: string -> DateParse, bulkFails: seq<Row> -> bool)
    returns (out: Outcome)
    ensures source.FileNotFound? ==> out == NotLoaded(FileMissing)
    ensures source.InvalidJson? ==> out == NotLoaded(BadJson)
    ensures source.Loaded? ==> !out.NotLoaded?
    ensures source.Loaded? && (exists k :: 0 <= k < |source.items| && source.items[k].NotObject?) ==> out.Crashed?
    ensures source.Loaded? && out.Crashed? ==> IsPrefix(Flatten(out.batches), GoodRows(source.items, Processor(parse)))
    ensures source.Loaded? && out.Finished? ==> Flatten(out.batches) == GoodRows(source.items, Processor(parse))
    ensures source.Loaded? && out.Finished? ==> out.successCount == |GoodRows(source.items, Processor(parse))|
    ensures source.Loaded? && out.Finished? ==>
      WithoutWriteErrors(out.errors) == ProcessingErrors(source.items, Processor(parse))
    ensures source.Loaded? ==> forall j :: 0 <= j < |out.batches| ==> |out.batches[j]| > 0
    ensures source.Loaded? && NeverFails(bulkFails) && (forall k :: 0 <= k < |source.items| ==> source.items[k].Object?)
      ==> out.Finished? && out.errors == ProcessingErrors(source.items, Processor(parse))
    ensures source.Loaded? && out.Finished? && NeverFails(bulkFails) ==>
      (forall j :: 0 <= j < |out.batches| - 1 ==> |out.batches[j]| == EffectiveBatchSize(batchSize))
      && (|out.batches| > 0 ==> |out.batches[|out.batches| - 1]| <= EffectiveBatchSize(batchSize))
  {
    match source
    case FileNotFound => return NotLoaded(FileMissing);
    case InvalidJson => return NotLoaded(BadJson);
    case Loaded(items) => out := ImportItems(items, batchSize, Processor(parse), bulkFails);
  }

  /** The loop's state: rows not yet written, the batches written, the
      success count and the error list. */
  datatype Progress = Progress(
    pending: seq<Row>, batches: seq<seq<Row>>, successCount: nat, errors: seq<ErrorEntry>)

  /** One object of the loop: process it, append its row and write the
      pending rows once there are `batchSize` of them. A failed write is
      caught like any other exception: it is recorded against the current
      item and the rows stay pending. */
  function Step(st: Progress, fields: map<string, Json>, batchSize: int,
                process: map<string, Json> -> Processed, bulkFails: seq<Row> -> bool): (next: Progress)
    ensures Flatten(next.batches) + next.pending
      == Flatten(st.batches) + st.pending + (if process(fields).Built? then [process(fields).row] else [])
    ensures IsPrefix(st.batches, next.batches) && |next.batches| <= |st.batches| + 1
    ensures IsPrefix(st.errors, next.errors) && |next.errors| <= |st.errors| + 1
    ensures process(fields).Failed? <==> |next.errors| > |st.errors| && !next.errors[|st.errors|].error.WriteFailed?
  {
    match process(fields)
    case Failed(failure) => st.(errors := st.errors + [ErrorEntry(Title(fields), Raised(failure))])
    case Built(row) =>
      var pending := st.pending + [row];
      if |pending| < batchSize then st.(pending := pending)
      else if bulkFails(pending) then
        st.(pending := pending, errors := st.errors + [ErrorEntry(Title(fields), WriteFailed)])
      else
        FlattenAppend(st.batches, pending);
        Progress([], st.batches + [pending], st.successCount + |pending|, st.errors)
  }

  /** What holds of the state after the objects `done`: every good row is
      written or pending, in order; the count matches what was written;
      apart from failed writes the errors are the processing failures; and
      every batch is full. Without failed writes, nothing more than a
      partial batch is pending and the batches have exactly the size. */
  ghost predicate Invariant(st: Progress, done: seq<Item>, batchSize: int,
                            process: map<string, Json> -> Processed, bulkFails: seq<Row> -> bool)
  {
    var size := EffectiveBatchSize(batchSize);
    && Flatten(st.batches) + st.pending == GoodRows(done, process)
    && st.successCount == |Flatten(st.batches)|
    && WithoutWriteErrors(st.errors) == ProcessingErrors(done, process)
    && (forall j :: 0 <= j < |st.batches| ==> |st.batches[j]| >= size)
    && (NeverFails(bulkFails) ==>
          && |st.pending| < size
          && st.errors == ProcessingErrors(done, process)
          && (forall j :: 0 <= j < |st.batches| ==> |st.batches[j]| == size))
  }

  lemma InvariantInit(batchSize: int, process: map<string, Json> -> Processed, bulkFails: seq<Row> -> bool)
    ensures Invariant(Progress([], [], 0, []), [], batchSize, process, bulkFails)
  {
  }

  lemma StepFailed(st: Progress, done: seq<Item>, fields: map<string, Json>, batchSize: int,
                   process: map<string, Json> -> Processed, bulkFails: seq<Row> -> bool)
    requires Invariant(st, done, batchSize, process, bulkFails)
    requires process(fields).Failed?
    ensures Invariant(Step(st, fields, batchSize, process, bulkFails), done + [Object(fields)], batchSize, process, bulkFails)
  {
    var all := done + [Object(fields)];
    assert all[..|done|] == done;
    var entry := ErrorEntry(Title(fields), Raised(process(fields).failure));
    WithoutWriteErrorsAppend(st.errors, entry);
  }

  lemma StepHeld(st: Progress, done: seq<Item>, fields: map<string, Json>, batchSize: int,
                 process: map<string, Json> -> Processed, bulkFails: seq<Row> -> bool)
    requires Invariant(st, done, batchSize, process, bulkFails)
    requires process(fields).Built?
    requires |st.pending| + 1 < batchSize
    ensures Invariant(Step(st, fields, batchSize, process, bulkFails), done + [Object(fields)], batchSize, process, bulkFails)
  {
    var all := done + [Object(fields)];
    assert all[..|done|] == done;
  }

  lemma StepWriteFailed(st: Progress, done: seq<Item>, fields: map<string, Json>, batchSize: int,
                        process: map<string, Json> -> Processed, bulkFails: seq<Row> -> bool)
    requires Invariant(st, done, batchSize, process, bulkFails)
    requires process(fields).Built?
    requires |st.pending| + 1 >= batchSize
    requires bulkFails(st.pending + [process(fields).row])
    ensures Invariant(Step(st, fields, batchSize, process, bulkFails), done + [Object(fields)], batchSize, process, bulkFails)
  {
    var all := done + [Object(fields)];
    assert all[..|done|] == done;
    WithoutWriteErrorsAppend(st.errors, ErrorEntry(Title(fields), WriteFailed));
  }

  lemma StepWritten(st: Progress, done: seq<Item>, fields: map<string, Json>, batchSize: int,
                    process: map<string, Json> -> Processed, bulkFails: seq<Row> -> bool)
    requires Invariant(st, done, batchSize, process, bulkFails)
    requires process(fields).Built?
    requires |st.pending| + 1 >= batchSize
    requires !bulkFails(st.pending + [process(fields).row])
    ensures Invariant(Step(st, fields, batchSize, process, bulkFails), done + [Object(fields)], batchSize, process, bulkFails)
  {
    var all := done + [Object(fields)];
    assert all[..|done|] == done;
    var pending := st.pending + [process(fields).row];
    FlattenAppend(st.batches, pending);
    var batches := st.batches + [pending];
    assert forall j :: 0 <= j < |st.batches| ==> batches[j] == st.batches[j];
  }

  /** The loop step keeps the invariant. */
  lemma StepKeepsInvariant(st: Progress, done: seq<Item>, fields: map<string, Json>, batchSize: int,
                           process: map<string, Json> -> Processed, bulkFails: seq<Row> -> bool)
    requires Invariant(st, done, batchSize, process, bulkFails)
    ensures Invariant(Step(st, fields, batchSize, process, bulkFails), done + [Object(fields)], batchSize, process, bulkFails)
  {
    var p := process(fields);
    if p.Failed? {
      StepFailed(st, done, fields, batchSize, process, bulkFails);
    } else if |st.pending| + 1 < batchSize {
      StepHeld(st, done, fields, batchSize, process, bulkFails);
    } else if bulkFails(st.pending + [p.row]) {
      StepWriteFailed(st, done, fields, batchSize, process, bulkFails);
    } else {
      StepWritten(st, done, fields, batchSize, process, bulkFails);
    }
  }

  /** Runs the loop step on the object `items[i]`. */
  method Advance(st: Progress, items: seq<Item>, i: nat, batchSize: int,
                 process: map<string, Json> -> Processed, bulkFails: seq<Row> -> bool)
    returns (next: Progress)
    requires i < |items| && items[i].Object?
    requires Invariant(st, items[..i], batchSize, process, bulkFails)
    ensures Invariant(next, items[..i + 1], batchSize, process, bulkFails)
  {
    var fields := items[i].fields;
    assert items[..i + 1] == items[..i] + [Object(fields)];
    StepKeepsInvariant(st, items[..i], fields, batchSize, process, bulkFails);
    next := Step(st, fields, batchSize, process, bulkFails);
  }

  /** `if records: bulk_create(records)` after the loop; a failure here is
      not caught. */
  method FinalWrite(st: Progress, items: seq<Item>, batchSize: int,
                    process: map<string, Json> -> Processed, bulkFails: seq<Row> -> bool)
    returns (out: Outcome)
    requires Invariant(st, items, batchSize, process, bulkFails)
    requires forall j :: 0 <= j < |st.batches| ==> |st.batches[j]| > 0
    ensures !out.NotLoaded?
    ensures out.Crashed? ==> IsPrefix(Flatten(out.batches), GoodRows(items, process))
    ensures out.Finished? ==> Flatten(out.batches) == GoodRows(items, process)
    ensures out.Finished? ==> out.successCount == |GoodRows(items, process)|
    ensures out.Finished? ==> WithoutWriteErrors(out.errors) == ProcessingErrors(items, process)
    ensures forall j :: 0 <= j < |out.batches| ==> |out.batches[j]| > 0
    ensures NeverFails(bulkFails) ==> out.Finished? && out.errors == ProcessingErrors(items, process)
    ensures out.Finished? && NeverFails(bulkFails) ==>
      (forall j :: 0 <= j < |out.batches| - 1 ==> |out.batches[j]| == EffectiveBatchSize(batchSize))
      && (|out.batches| > 0 ==> |out.batches[|out.batches| - 1]| <= EffectiveBatchSize(batchSize))
  {
    if |st.pending| == 0 {
      assert Flatten(st.batches) == GoodRows(items, process);
      return Finished(st.batches, st.successCount, st.errors);
    }
    if bulkFails(st.pending) {
      PrefixOfPrefix(Flatten(st.batches), st.pending, GoodRows(items, process), GoodRows(items, process));
      return Crashed(st.batches);
    }
    FlattenAppend(st.batches, st.pending);
    var batches := st.batches + [st.pending];
    assert forall j :: 0 <= j < |st.batches| ==> batches[j] == st.batches[j];
    return Finished(batches, st.successCount + |st.pending|, st.errors);
  }

  /** The command stops at item `i`; what was written stays written. */
  method CrashAt(st: Progress, items: seq<Item>, i: nat, batchSize: int,
                 process: map<string, Json> -> Processed, bulkFails: seq<Row> -> bool)
    returns (out: Outcome)
    requires i <= |items|
    requires Invariant(st, items[..i], batchSize, process, bulkFails)
    ensures out.Crashed? && IsPrefix(Flatten(out.batches), GoodRows(items, process))
    ensures forall j :: 0 <= j < |out.batches| ==> |out.batches[j]| > 0
  {
    GoodRowsPrefix(items, i, process);
    PrefixOfPrefix(Flatten(st.batches), st.pending, GoodRows(items[..i], process), GoodRows(items, process));
    return Crashed(st.batches);
  }

  /** The loop over the items and the final write of the remainder. */
  method ImportItems(items: seq<Item>, batchSize: int, process: map<string, Json> -> Processed, bulkFails: seq<Row> -> bool)
    returns (out: Outcome)
    ensures !out.NotLoaded?
    ensures (exists k :: 0 <= k < |items| && items[k].NotObject?) ==> out.Crashed?
    ensures out.Crashed? ==> IsPrefix(Flatten(out.batches), GoodRows(items, process))
    ensures out.Finished? ==> Flatten(out.batches) == GoodRows(items, process)
    ensures out.Finished? ==> out.successCount == |GoodRows(items, process)|
    ensures out.Finished? ==> WithoutWriteErrors(out.errors) == ProcessingErrors(items, process)
    ensures forall j :: 0 <= j < |out.batches| ==> |out.batches[j]| > 0
    ensures NeverFails(bulkFails) && (forall k :: 0 <= k < |items| ==> items[k].Object?)
      ==> out.Finished? && out.errors == ProcessingErrors(items, process)
    ensures out.Finished? && NeverFails(bulkFails) ==>
      (forall j :: 0 <= j < |out.batches| - 1 ==> |out.batches[j]| == EffectiveBatchSize(batchSize))
      && (|out.batches| > 0 ==> |out.batches[|out.batches| - 1]| <= EffectiveBatchSize(batchSize))
  {
    var st := Progress([], [], 0, []);
    InvariantInit(batchSize, process, bulkFails);
    var i := 0;
    while i < |items|
      invariant 0 <= i <= |items|
      invariant forall k :: 0 <= k < i ==> items[k].Object?
      invariant Invariant(st, items[..i], batchSize, process, bulkFails)
    {
      if items[i].NotObject? {
        // `item.items()` raises, and so does `item.get` in the handler.
        out := CrashAt(st, items, i, batchSize, process, bulkFails);
        return;
      }
      st := Advance(st, items, i, batchSize, process, bulkFails);
      i := i + 1;
    }
    assert items[..i] == items;
    out := FinalWrite(st, items, batchSize, process, bulkFails);
  }

  /** A line of the command's closing report. */
  datatype ReportLine =
    | Imported(count: nat)
    | FailedHeader(count: nat)
    | ErrorLine(entry: ErrorEntry)
    | MoreErrors(count: nat)

  /** The report: the success line, then, when anything failed, the
      error count, the first ten entries and a line for the rest. */
  function Report(successCount: nat, errors: seq<ErrorEntry>): (lines: seq<ReportLine>)
    ensures |lines| >= 1 && lines[0] == Imported(successCount)
    ensures errors == [] <==> |lines| == 1
    ensures errors != [] ==> lines[1] == FailedHeader(|errors|)
    ensures errors != [] ==>
      |lines| == 2 + (if |errors| <= ShownErrors then |errors| else ShownErrors + 1)
    ensures forall i :: 0 <= i < |errors| && i < ShownErrors ==> lines[2 + i] == ErrorLine(errors[i])
    ensures |errors| > ShownErrors ==> lines[|lines| - 1] == MoreErrors(|errors| - ShownErrors)
    ensures forall i :: 0 <= i < |lines| && lines[i].MoreErrors? ==> |errors| > ShownErrors
  {
    if errors == [] then [Imported(successCount)]
    else
      var shown := if |errors| <= ShownErrors then errors else errors[..ShownErrors];
      var entryLines := seq(|shown|, i requires 0 <= i < |shown| => ErrorLine(shown[i]));
      [Imported(successCount), FailedHeader(|errors|)] + entryLines
        + (if |errors| > ShownErrors then [MoreErrors(|errors| - ShownErrors)] else [])
  }

  /** The entries shown plus the count announced for the rest account for
      every error exactly once. */
  function Accounted(lines: seq<ReportLine>): nat {
    if |lines| == 0 then 0
    else
      var last := lines[|lines| - 1];
      Accounted(lines[..|lines| - 1])
        + (match last case ErrorLine(_) => 1 case MoreErrors(n) => n case _ => 0)
  }

  lemma {:induction false} AccountedAppend(a: seq<ReportLine>, b: seq<ReportLine>)
    ensures Accounted(a + b) == Accounted(a) + Accounted(b)
  {
    if |b| == 0 {
      assert a + b == a;
    } else {
      assert (a + b)[..|a + b| - 1] == a + b[..|b| - 1];
      AccountedAppend(a, b[..|b| - 1]);
    }
  }

  lemma {:induction false} AccountedEntries(entries: seq<ReportLine>)
    requires forall i :: 0 <= i < |entries| ==> entries[i].ErrorLine?
    ensures Accounted(entries) == |entries|
  {
    if |entries| > 0 {
      AccountedEntries(entries[..|entries| - 1]);
    }
  }

  lemma ReportAccountsForAllErrors(successCount: nat, errors: seq<ErrorEntry>)
    ensures Accounted(Report(successCount, errors)) == |errors|
  {
    var lines := Report(successCount, errors);
    if errors != [] {
      var shown := if |errors| <= ShownErrors then errors else errors[..ShownErrors];
      var entryLines := seq(|shown|, i requires 0 <= i < |shown| => ErrorLine(shown[i]));
      var tail := if |errors| > ShownErrors then [MoreErrors(|errors| - ShownErrors)] else [];
      AccountedAppend([Imported(successCount), FailedHeader(|errors|)] + entryLines, tail);
      AccountedAppend([Imported(successCount), FailedHeader(|errors|)], entryLines);
      AccountedEntries(entryLines);
      assert [Imported(successCount), FailedHeader(|errors|)][..1] == [Imported(successCount)];
      if |errors| > ShownErrors {
        assert Accounted(tail) == Accounted([]) + (|errors| - ShownErrors);
      }
    }
  }
}
