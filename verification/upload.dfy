/** The history-upload endpoint: a JSON array of `{user_input, gpt_response}` objects is
    imported as rows of the current user, all together or not at all. */
module Upload {
  import opened Wrappers
  import opened Seqs
  import opened Store
  import opened Context

  /** A field of an uploaded object: missing, JSON null, or a string. */
  datatype Field = Absent | Null | Text(s: string)

  /** One element of the uploaded array: an object with the two fields, or a value that is
      not an object (and so has no `get`). */
  datatype Entry = Object(userInput: Field, gptResponse: Field) | NotAnObject

  /** The result of reading and JSON-decoding the file's bytes. */
  datatype Parse = Unparsable | Entries(entries: seq<Entry>)

  /** The uploaded file part. */
  datatype File = File(filename: string, contentType: string, content: Parse)

  /** The flash message the redirect carries. */
  datatype Flash = Uploaded | UploadFailed | InvalidFileType

  datatype UploadEffect = UploadEffect(table: Table, flash: Flash)

  /** An entry whose row can be committed: an object none of whose fields is null (a null
      would violate the NOT NULL text columns). */
  predicate Importable(e: Entry)
    ensures Importable(e) ==> e.Object?
    ensures e.Object? && (e.userInput.Null? || e.gptResponse.Null?) ==> !Importable(e)
  {
    e.Object? && !e.userInput.Null? && !e.gptResponse.Null?
  }

  /** `entry.get(key, "")` for a field that is not null. */
  function FieldText(f: Field): (r: string)
    requires !f.Null?
    ensures f.Absent? ==> r == ""
    ensures f.Text? ==> r == f.s
  {
    match f
    case Absent => ""
    case Text(s) => s
  }

  /** The row an importable entry becomes. */
  function EntryRow(u: UserId, e: Entry): (row: Row)
    requires Importable(e)
    ensures row.userId == u
    ensures e.userInput.Text? ==> row.inputText == e.userInput.s
    ensures e.userInput.Absent? ==> row.inputText == ""
    ensures e.gptResponse.Text? ==> row.gptResponse == e.gptResponse.s
    ensures e.gptResponse.Absent? ==> row.gptResponse == ""
  {
    Row(u, FieldText(e.userInput), FieldText(e.gptResponse))
  }

  /** The rows of a batch, or None when some entry cannot be committed. */
  function ImportRows(u: UserId, es: seq<Entry>): (r: Option<seq<Row>>)
    ensures r.Some? <==> forall j :: 0 <= j < |es| ==> Importable(es[j])
    ensures r.Some? ==>
              |r.value| == |es| && (forall j :: 0 <= j < |es| ==> r.value[j] == EntryRow(u, es[j]))
    decreases |es|
  {
    if |es| == 0 then Some([])
    else if !Importable(es[0]) then None
    else match ImportRows(u, es[1..])
      case None => None
      case Some(rest) => Some([EntryRow(u, es[0])] + rest)
  }

  /** A POST of the upload form by user `u` with optional file part `file`. */
  function UploadHistory(t: Table, u: UserId, file: Option<File>): (e: UploadEffect)
    // anything but a named JSON file is refused before reading it
    ensures (file.None? || file.value.filename == "" ||
             file.value.contentType != "application/json") <==> e.flash == InvalidFileType
    // all or nothing: success exactly when every entry is importable
    ensures e.flash == Uploaded <==>
              file.Some? && file.value.filename != "" &&
              file.value.contentType == "application/json" && file.value.content.Entries? &&
              forall j :: 0 <= j < |file.value.content.entries| ==>
                Importable(file.value.content.entries[j])
    ensures e.flash != Uploaded ==> e.table == t
    // success: one row per entry, for `u`, in list order, after the existing rows
    ensures e.flash == Uploaded ==>
              var es := file.value.content.entries;
              |e.table| == |t| + |es| && e.table[..|t|] == t &&
              forall j :: 0 <= j < |es| ==> e.table[|t| + j] == EntryRow(u, es[j])
  {
    if file.None? || file.value.filename == "" || file.value.contentType != "application/json" then
      UploadEffect(t, InvalidFileType)
    else match file.value.content
      case Unparsable => UploadEffect(t, UploadFailed)
      case Entries(es) =>
        match ImportRows(u, es)
        case None => UploadEffect(t, UploadFailed)
        case Some(rows) =>
          assert (t + rows)[..|t|] == t;
          UploadEffect(t + rows, Uploaded)
  }

  /** An upload of K entries gives the uploader exactly K more rows, which decode in list
      order, and leaves every other user's rows as they were. */
  lemma UploadCounts(t: Table, u: UserId, file: Option<File>)
    ensures var e := UploadHistory(t, u, file);
      e.flash == Uploaded ==> Count(e.table, u) == Count(t, u) + |file.value.content.entries|
    ensures forall v :: v != u ==> Owned(UploadHistory(t, u, file).table, v) == Owned(t, v)
  {
    var e := UploadHistory(t, u, file);
    if e.flash == Uploaded {
      var rows := ImportRows(u, file.value.content.entries).value;
      assert e.table == t + rows;
      forall v
        ensures Owned(e.table, v) == Owned(t, v) + (if v == u then rows else [])
      {
        OwnedConcat(t, rows, v);
        AllOwnedBy(rows, u, v);
      }
    }
  }

  /** Filtering a batch that belongs to one user keeps all of it for that user and none of
      it for anyone else. */
  lemma {:induction false} AllOwnedBy(rows: seq<Row>, u: UserId, v: UserId)
    requires forall j :: 0 <= j < |rows| ==> rows[j].userId == u
    ensures Owned(rows, v) == if v == u then rows else []
    decreases |rows|
  {
    if |rows| > 0 {
      var init := rows[..|rows| - 1];
      assert rows == init + [rows[|rows| - 1]];
      AllOwnedBy(init, u, v);
      OwnedSnoc(init, rows[|rows| - 1], v);
    }
  }

  /** An upload entry that imports as a row decoding back to `m`, used to state the
      upload round trip. */
  function EncodeEntry(m: Msg): (e: Entry)
    ensures Importable(e)
  {
    if m.role == User then Object(Text(m.content), Absent) else Object(Absent, Text(m.content))
  }

  /** Round trip: uploading the entries that encode storable messages and reopening the
      dashboard shows the newest of them, in the order they were uploaded. */
  lemma UploadViewRoundTrip(t: Table, u: UserId, msgs: seq<Msg>, es: seq<Entry>, filename: string)
    requires filename != ""
    requires forall j :: 0 <= j < |msgs| ==> Storable(msgs[j])
    requires |es| == |msgs| && forall j :: 0 <= j < |es| ==> es[j] == EncodeEntry(msgs[j])
    ensures var e := UploadHistory(t, u, Some(File(filename, "application/json", Entries(es))));
      e.flash == Uploaded &&
      Last(History(e.table, u), Min(HistoryLimit, |msgs|)) == Last(msgs, HistoryLimit)
  {
    var file := File(filename, "application/json", Entries(es));
    UploadAppends(t, u, file);
    var rows := ImportRows(u, es).value;
    forall j | 0 <= j < |rows|
      ensures rows[j].userId == u && DecodeRow(rows[j]) == msgs[j]
    {
      assert rows[j] == EncodeMsg(u, msgs[j]);
      DecodeEncode(u, msgs[j], rows[j]);
    }
    assert DecodeAll(rows) == msgs;
    HistoryAfterBatch(t, rows, u);
  }

  /** A successful upload appends exactly the imported rows. */
  lemma UploadAppends(t: Table, u: UserId, file: File)
    requires file.filename != "" && file.contentType == "application/json"
    requires file.content.Entries?
    requires forall j :: 0 <= j < |file.content.entries| ==> Importable(file.content.entries[j])
    ensures ImportRows(u, file.content.entries).Some?
    ensures UploadHistory(t, u, Some(file)) ==
              UploadEffect(t + ImportRows(u, file.content.entries).value, Uploaded)
  {
  }

  /** After a batch of `u`'s rows is appended, the newest entries of `u`'s history are the
      decoded newest rows of the batch. */
  lemma HistoryAfterBatch(t: Table, rows: seq<Row>, u: UserId)
    requires forall j :: 0 <= j < |rows| ==> rows[j].userId == u
    ensures Last(History(t + rows, u), Min(HistoryLimit, |rows|)) == Last(DecodeAll(rows), HistoryLimit)
  {
    OwnedConcat(t, rows, u);
    AllOwnedBy(rows, u, u);
    var o := Owned(t, u);
    assert Window(t + rows, u) == Last(o + rows, HistoryLimit);
    LastOfConcat(o, rows, HistoryLimit);
    DecodeAllLast(Last(o + rows, HistoryLimit), Min(HistoryLimit, |rows|));
    DecodeAllLast(rows, HistoryLimit);
  }
}
