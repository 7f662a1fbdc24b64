/** Brokerage requests as chaincode.go keeps them: one row per request in the
    `BrokerageRequests` table, built in the declared column order and read
    back position by position, and a read-modify-write update that rewrites
    the whole row. */
module Brokerage {
  import opened Base
  import opened Store
  import IndexManager
  import Json

  /** A brokerage request. Every field is a Go string; `updateType` travels
      in the update's input only and has no column. */
  datatype Request = Request(
    requestId: string,
    submitter: string,
    approver: string,
    documents: string,
    personalDetails: string,
    kycDetails: string,
    status: string,
    docValidationReport: string,
    facialValidation: string,
    video: string,
    timeStamps: string,
    meeting: string,
    updateType: string)

  /** The zero value of the struct. */
  const Blank := Request("", "", "", "", "", "", "", "", "", "", "", "", "")

  /** The number of stored fields, one per column. */
  const FieldCount := 12

  const RequestIdPos := 0
  const StatusPos := 6
  const VideoPos := 9
  const TimeStampsPos := 10
  const MeetingPos := 11

  /** The stored field at column position `i`, in declaration order. */
  function FieldAt(b: Request, i: nat): string
    requires i < FieldCount
  {
    match i
    case 0 => b.requestId
    case 1 => b.submitter
    case 2 => b.approver
    case 3 => b.documents
    case 4 => b.personalDetails
    case 5 => b.kycDetails
    case 6 => b.status
    case 7 => b.docValidationReport
    case 8 => b.facialValidation
    case 9 => b.video
    case 10 => b.timeStamps
    case _ => b.meeting
  }

  /** The request with the field at position `i` set to `v`; a position past
      the last field sets nothing. */
  function WithField(b: Request, i: nat, v: string): (r: Request)
    ensures forall j :: 0 <= j < FieldCount ==> FieldAt(r, j) == if j == i then v else FieldAt(b, j)
    ensures r.updateType == b.updateType
  {
    match i
    case 0 => b.(requestId := v)
    case 1 => b.(submitter := v)
    case 2 => b.(approver := v)
    case 3 => b.(documents := v)
    case 4 => b.(personalDetails := v)
    case 5 => b.(kycDetails := v)
    case 6 => b.(status := v)
    case 7 => b.(docValidationReport := v)
    case 8 => b.(facialValidation := v)
    case 9 => b.(video := v)
    case 10 => b.(timeStamps := v)
    case 11 => b.(meeting := v)
    case _ => b
  }

  /** A request is its twelve stored fields and its update type. */
  lemma FieldsDetermine(a: Request, b: Request)
    requires forall j :: 0 <= j < FieldCount ==> FieldAt(a, j) == FieldAt(b, j)
    requires a.updateType == b.updateType
    ensures a == b
  {
    assert FieldAt(a, 0) == FieldAt(b, 0) && FieldAt(a, 1) == FieldAt(b, 1);
    assert FieldAt(a, 2) == FieldAt(b, 2) && FieldAt(a, 3) == FieldAt(b, 3);
    assert FieldAt(a, 4) == FieldAt(b, 4) && FieldAt(a, 5) == FieldAt(b, 5);
    assert FieldAt(a, 6) == FieldAt(b, 6) && FieldAt(a, 7) == FieldAt(b, 7);
    assert FieldAt(a, 8) == FieldAt(b, 8) && FieldAt(a, 9) == FieldAt(b, 9);
    assert FieldAt(a, 10) == FieldAt(b, 10) && FieldAt(a, 11) == FieldAt(b, 11);
  }

  const TableName := "BrokerageRequests"

  /** The columns `Init` declares for `BrokerageRequests`, in order. */
  const Schema: seq<ColumnDef> := [
    ColumnDef("RequestID", STRING, true),
    ColumnDef("Submitter", STRING, false),
    ColumnDef("Approver", STRING, false),
    ColumnDef("Documents", BYTES, false),
    ColumnDef("PersonalDetails", BYTES, false),
    ColumnDef("KYCDetails", BYTES, false),
    ColumnDef("Status", STRING, false),
    ColumnDef("DocValidationReport", BYTES, false),
    ColumnDef("FacialValidation", BYTES, false),
    ColumnDef("VideoRecording", BYTES, false),
    ColumnDef("TimeStamps", BYTES, false),
    ColumnDef("Meeting", STRING, false)
  ]

  /** The row `create_brokerage_request` inserts and the update replaces: each
      field in its schema position and of its schema type, except that the
      TimeStamps column takes the blob the caller passes rather than the
      field. */
  function ToColumns(b: Request, timeStamps: Bytes): (r: Row)
    ensures |r| == |Schema| == FieldCount
    ensures Conforms(Schema, r)
    ensures forall i :: 0 <= i < FieldCount && i != TimeStampsPos ==> Payload(r[i]) == FieldAt(b, i)
    ensures r[TimeStampsPos] == BytesCol(timeStamps)
    ensures KeyOf(r) == b.requestId
  {
    [ StrCol(b.requestId),
      StrCol(b.submitter),
      StrCol(b.approver),
      BytesCol(b.documents),
      BytesCol(b.personalDetails),
      BytesCol(b.kycDetails),
      StrCol(b.status),
      BytesCol(b.docValidationReport),
      BytesCol(b.facialValidation),
      BytesCol(b.video),
      BytesCol(timeStamps),
      StrCol(b.meeting) ]
  }

  /** `getStructFromRow`: walks the columns in order, setting field `i` from
      column `i` through the string getter. Columns past the twelfth are
      ignored, fields without a column stay empty, and the update type is
      never set. */
  function FromColumns(row: Row): (r: Request)
    ensures forall i :: 0 <= i < FieldCount ==>
      FieldAt(r, i) == if i < |row| then GetString(row[i]) else ""
    ensures r.updateType == ""
    decreases |row|
  {
    if |row| == 0 then Blank
    else WithField(FromColumns(row[..|row| - 1]), |row| - 1, GetString(row[|row| - 1]))
  }

  /** Columns beyond the schema make no difference to the decoded request. */
  lemma ExtraColumnsIgnored(row: Row)
    requires |row| > FieldCount
    ensures FromColumns(row) == FromColumns(row[..FieldCount])
  {
    FieldsDetermine(FromColumns(row), FromColumns(row[..FieldCount]));
  }

  /** Building a row and decoding it gives back every STRING column's field
      (RequestID, Submitter, Approver, Status, Meeting) and the empty string
      for every BYTES column, since the getter reads only the string variant. */
  lemma ColumnsRoundTrip(b: Request, timeStamps: Bytes)
    ensures forall i :: 0 <= i < FieldCount ==>
      FieldAt(FromColumns(ToColumns(b, timeStamps)), i)
        == if Schema[i].ctype == STRING then FieldAt(b, i) else ""
    ensures FromColumns(ToColumns(b, timeStamps))
        == Blank.(requestId := b.requestId, submitter := b.submitter, approver := b.approver,
                  status := b.status, meeting := b.meeting)
  {
    var d := FromColumns(ToColumns(b, timeStamps));
    var e := Blank.(requestId := b.requestId, submitter := b.submitter, approver := b.approver,
                    status := b.status, meeting := b.meeting);
    FieldsDetermine(d, e);
  }

  /** The timestamp record; field names are its JSON member names. */
  datatype TimeStamp = TimeStamp(submit: string, meetingConfirmation: string, finalStatus: string)

  function EncodeTimeStamp(t: TimeStamp): Bytes {
    Json.EncodeObject([("Submit", t.submit), ("MeetingConfirmation", t.meetingConfirmation),
                       ("FinalStatus", t.finalStatus)])
  }

  /** Reads a timestamp blob back; `None` for a text that is not the JSON of
      the record's three members in declaration order. */
  function DecodeTimeStamp(b: Bytes): Option<TimeStamp> {
    match Json.DecodeObject(b)
    case None => None
    case Some(ms) =>
      if |ms| == 3 && ms[0].0 == "Submit" && ms[1].0 == "MeetingConfirmation" && ms[2].0 == "FinalStatus"
      then Some(TimeStamp(ms[0].1, ms[1].1, ms[2].1))
      else None
  }

  lemma TimeStampRoundTrip(t: TimeStamp)
    ensures DecodeTimeStamp(EncodeTimeStamp(t)) == Some(t)
  {
    Json.ObjectRoundTrip([("Submit", t.submit), ("MeetingConfirmation", t.meetingConfirmation),
                          ("FinalStatus", t.finalStatus)]);
  }

  /** `get_current_time`: a fresh record with only `Submit` set, to the
      clock reading `now` (the UTC time in Unix date format). */
  function CurrentTime(now: string): (r: Bytes)
    ensures |r| > 0
    ensures DecodeTimeStamp(r) == Some(TimeStamp(now, "", ""))
  {
    TimeStampRoundTrip(TimeStamp(now, "", ""));
    EncodeTimeStamp(TimeStamp(now, "", ""))
  }

  /** Distinct clock readings give distinct stamps. */
  lemma CurrentTimeInjective(now: string, now': string)
    ensures CurrentTime(now) == CurrentTime(now') <==> now == now'
  {
  }

  /** `Init`: clears `_applications`, then creates the `BrokerageRequests`
      table with the declared schema. A failed write is returned as the
      ledger's own error; a failed table creation as a chaincode error. */
  function Init(led: Ledger, f: Faults): (r: (Ledger, Result<Bytes>))
    ensures IndexManager.ApplicationsIndex in f.writeFails ==> r == (led, Failure(LedgerFailed("PutState")))
    ensures IndexManager.ApplicationsIndex !in f.writeFails ==>
      && IndexManager.ReadIndex(r.0.state, IndexManager.ApplicationsIndex) == []
      && forall k :: k != IndexManager.ApplicationsIndex ==> Lookup(r.0.state, k) == Lookup(led.state, k)
    ensures r.1.Success? <==>
      IndexManager.ApplicationsIndex !in f.writeFails && TableName !in f.createFails && TableName !in led.tables
    ensures r.1.Success? ==>
      r.1.value == "" && r.0.tables == led.tables[TableName := Table(Schema, map[])]
    ensures r.1.Failure? && IndexManager.ApplicationsIndex !in f.writeFails ==>
      r.1 == Failure(Failed("Failed creating Brokerage Requests Table")) && r.0.tables == led.tables
  {
    match PutState(led.state, f, IndexManager.ApplicationsIndex, IndexManager.EmptyIndex)
    case Failure(e) => (led, Failure(e))
    case Success(st) =>
      Json.StringsRoundTrip([]);
      match CreateTable(led.tables, f, TableName, Schema)
      case Failure(_) => (Ledger(st, led.tables), Failure(Failed("Failed creating Brokerage Requests Table")))
      case Success(tables) => (Ledger(st, tables), Success(""))
  }

  /** Whether the insert of `create_brokerage_request` lands: the table exists,
      the key is new and the write does not fault. */
  predicate Inserts(led: Ledger, f: Faults, key: string) {
    && TableName in led.tables
    && led.tables[TableName].schema == Schema
    && key !in led.tables[TableName].rows
    && key !in f.rowFails
  }

  /** `create_brokerage_request(jsonData)`: decodes the request (decode errors
      are ignored), stamps it with a fresh Submit time and inserts its row.
      It answers nil without error whatever the insert did. The world state
      and all other tables are never touched. */
  function CreateRequest(led: Ledger, f: Faults, jsonData: string, decode: string -> Request, now: string)
    : (r: (Ledger, Result<Bytes>))
    ensures r.1 == Success("")
    ensures r.0.state == led.state
    ensures
      var b := decode(jsonData);
      && (Inserts(led, f, b.requestId) ==>
            r.0.tables == led.tables[TableName := led.tables[TableName].(
              rows := led.tables[TableName].rows[b.requestId := ToColumns(b, CurrentTime(now))])])
      && (!Inserts(led, f, b.requestId) ==>
            (TableName in led.tables ==> led.tables[TableName].schema == Schema) ==> r.0 == led)
  {
    var b := decode(jsonData);
    var (tables, _) := InsertRow(led.tables, f, TableName, ToColumns(b, CurrentTime(now)));
    (Ledger(led.state, tables), Success(""))
  }

  /** `fetch_from_table` can only proceed when the row exists and has the two
      columns it prints. */
  predicate Readable(led: Ledger, id: string) {
    TableName in led.tables && id in led.tables[TableName].rows && |led.tables[TableName].rows[id]| >= 2
  }

  function StoredRow(led: Ledger, id: string): Row
    requires Readable(led, id)
  {
    led.tables[TableName].rows[id]
  }

  /** `get_brokerage_request(id)`: the stored row decoded. (The JSON encoding
      of the answer is left to the caller.) */
  function GetRequest(led: Ledger, id: string): (r: Request)
    requires Readable(led, id)
    ensures r.updateType == ""
    ensures WellFormed(led.tables[TableName]) ==> r.requestId == id
    ensures WellFormed(led.tables[TableName]) && led.tables[TableName].schema == Schema ==>
      forall i :: 0 <= i < FieldCount ==>
        FieldAt(r, i) == if Schema[i].ctype == STRING then Payload(StoredRow(led, id)[i]) else ""
  {
    var row := StoredRow(led, id);
    if WellFormed(led.tables[TableName]) && led.tables[TableName].schema == Schema then
      DecodeConforming(row);
      FromColumns(row)
    else
      FromColumns(row)
  }

  /** Decoding a row that fits the schema yields the contents of its STRING
      cells and "" for every BYTES cell. */
  lemma DecodeConforming(row: Row)
    requires Conforms(Schema, row)
    ensures forall i :: 0 <= i < FieldCount ==>
      FieldAt(FromColumns(row), i) == if Schema[i].ctype == STRING then Payload(row[i]) else ""
  {
    forall i | 0 <= i < FieldCount
      ensures FieldAt(FromColumns(row), i) == if Schema[i].ctype == STRING then Payload(row[i]) else ""
    {
      assert TypeOf(row[i]) == Schema[i].ctype;
    }
  }

  /** A stored request reads back with its STRING fields intact and its BYTES
      fields empty: create-then-get does not return the created request. */
  lemma CreateThenGet(led: Ledger, f: Faults, jsonData: string, decode: string -> Request, now: string)
    requires Inserts(led, f, decode(jsonData).requestId)
    ensures
      var b := decode(jsonData);
      var led' := CreateRequest(led, f, jsonData, decode, now).0;
      && Readable(led', b.requestId)
      && GetRequest(led', b.requestId)
           == Blank.(requestId := b.requestId, submitter := b.submitter, approver := b.approver,
                     status := b.status, meeting := b.meeting)
  {
    var b := decode(jsonData);
    ColumnsRoundTrip(b, CurrentTime(now));
  }

  /** The update kinds the chaincode recognises. */
  datatype UpdateKind = MeetingUpdate | VideoUpdate | StatusUpdate | OtherUpdate

  function KindOf(updateType: string): UpdateKind {
    if updateType == "MEETING" then MeetingUpdate
    else if updateType == "VIDEO" then VideoUpdate
    else if updateType == "STATUS" then StatusUpdate
    else OtherUpdate
  }

  /** The field position an update kind writes, if any. */
  function Target(kind: UpdateKind): Option<nat> {
    match kind
    case MeetingUpdate => Some(MeetingPos)
    case VideoUpdate => Some(VideoPos)
    case StatusUpdate => Some(StatusPos)
    case OtherUpdate => None
  }

  /** The in-memory edit of the update: the field the kind selects receives
      the whole input text; every other field, and the update type, is kept.
      An unrecognised kind changes nothing. */
  function ApplyUpdate(b: Request, kind: UpdateKind, payload: string): (r: Request)
    ensures forall i :: 0 <= i < FieldCount ==>
      FieldAt(r, i) == if Target(kind) == Some(i) then payload else FieldAt(b, i)
    ensures r.updateType == b.updateType
    ensures kind == OtherUpdate ==> r == b
  {
    match kind
    case MeetingUpdate => b.(meeting := payload)
    case VideoUpdate => b.(video := payload)
    case StatusUpdate => b.(status := payload)
    case OtherUpdate => b
  }

  /** The timestamp blob an update writes and returns: for a meeting, a fresh
      `get_current_time` record, so the meeting time lands in `Submit` and
      `MeetingConfirmation` stays empty; nil for every other kind. */
  function UpdateStamp(kind: UpdateKind, now: string): (r: Bytes)
    ensures r != "" <==> kind == MeetingUpdate
    ensures kind == MeetingUpdate ==> DecodeTimeStamp(r) == Some(TimeStamp(now, "", ""))
  {
    if kind == MeetingUpdate then CurrentTime(now) else ""
  }

  /** The row the update writes back for the stored row `row`. */
  function UpdatedRow(row: Row, kind: UpdateKind, payload: string, now: string): Row {
    ToColumns(ApplyUpdate(FromColumns(row), kind, payload), UpdateStamp(kind, now))
  }

  /** Whether the replace of the update lands. */
  predicate Replaces(led: Ledger, f: Faults, key: string) {
    && TableName in led.tables
    && led.tables[TableName].schema == Schema
    && key in led.tables[TableName].rows
    && key !in f.rowFails
  }

  /** `update_brokerage_application(jsonData)`: decodes the input, fetches the
      stored row by the input's RequestID, decodes it, applies the edit its
      UpdateType selects and replaces the whole row, with the TimeStamps
      column set to the update's stamp. The stamp is returned and no error
      ever is, even when the replace fails. */
  function UpdateApplication(led: Ledger, f: Faults, jsonData: string, decode: string -> Request, now: string)
    : (r: (Ledger, Result<Bytes>))
    requires Readable(led, decode(jsonData).requestId)
    ensures r.1 == Success(UpdateStamp(KindOf(decode(jsonData).updateType), now))
    ensures r.0.state == led.state
    ensures
      var input := decode(jsonData);
      var row := StoredRow(led, input.requestId);
      var key := GetString(row[0]);
      var newRow := UpdatedRow(row, KindOf(input.updateType), jsonData, now);
      && (Replaces(led, f, key) ==>
            r.0.tables == led.tables[TableName := led.tables[TableName].(
              rows := led.tables[TableName].rows[key := newRow])])
      && (!Replaces(led, f, key) && led.tables[TableName].schema == Schema ==> r.0 == led)
  {
    var input := decode(jsonData);
    var stored := FromColumns(StoredRow(led, input.requestId));
    var kind := KindOf(input.updateType);
    var stamp := UpdateStamp(kind, now);
    var (tables, _) := ReplaceRow(led.tables, f, TableName, ToColumns(ApplyUpdate(stored, kind, jsonData), stamp));
    (Ledger(led.state, tables), Success(stamp))
  }

  /** What the update writes, column by column, over a stored row that fits
      the schema: the selected column gets the input text, TimeStamps gets
      the new stamp, every other STRING column keeps its value, and every
      other BYTES column is emptied, because the decode read it as "". */
  lemma UpdatedRowColumns(row: Row, kind: UpdateKind, payload: string, now: string)
    requires Conforms(Schema, row)
    ensures
      var newRow := UpdatedRow(row, kind, payload, now);
      && |newRow| == |row|
      && forall i :: 0 <= i < FieldCount ==>
           newRow[i] == (if i == TimeStampsPos then BytesCol(UpdateStamp(kind, now))
                         else if Target(kind) == Some(i) then
                           (if Schema[i].ctype == STRING then StrCol(payload) else BytesCol(payload))
                         else if Schema[i].ctype == STRING then row[i]
                         else BytesCol(""))
  {
  }

  /** A consequence of the above: whatever a request's Documents held, any
      update leaves it empty. */
  lemma UpdateErasesDocuments(row: Row, kind: UpdateKind, payload: string, now: string)
    requires Conforms(Schema, row)
    ensures UpdatedRow(row, kind, payload, now)[3] == BytesCol("")
  {
    UpdatedRowColumns(row, kind, payload, now);
  }

  /** Read back after an update, a request shows exactly the edit on its
      STRING fields (Status, Meeting) and nothing else changed; a VIDEO update
      lands in a BYTES column and so is invisible to the read. */
  lemma UpdateThenGet(row: Row, kind: UpdateKind, payload: string, now: string)
    requires Conforms(Schema, row)
    ensures FromColumns(UpdatedRow(row, kind, payload, now))
         == if kind == VideoUpdate then FromColumns(row) else ApplyUpdate(FromColumns(row), kind, payload)
  {
    var before := FromColumns(row);
    var b := ApplyUpdate(before, kind, payload);
    var after := FromColumns(UpdatedRow(row, kind, payload, now));
    var expected := if kind == VideoUpdate then before else b;
    ColumnsRoundTrip(b, UpdateStamp(kind, now));
    forall i | 0 <= i < FieldCount
      ensures FieldAt(after, i) == FieldAt(expected, i)
    {
      assert TypeOf(row[i]) == Schema[i].ctype;
    }
    FieldsDetermine(after, expected);
  }

  /** A MEETING update overwrites the stored stamp with a fresh record
      whatever it held: the creation time is lost, the meeting time is
      recorded as `Submit`, and `MeetingConfirmation` stays empty. */
  lemma MeetingUpdateResetsStamp(row: Row, payload: string, now: string)
    ensures DecodeTimeStamp(Payload(UpdatedRow(row, MeetingUpdate, payload, now)[TimeStampsPos]))
         == Some(TimeStamp(now, "", ""))
  {
  }

  /** Over a well-formed table the update replaces the very row it read. */
  lemma UpdateTargetsFetchedRow(led: Ledger, id: string)
    requires Readable(led, id) && WellFormed(led.tables[TableName])
    ensures GetString(StoredRow(led, id)[0]) == id
  {
  }
}
