/** Where cc1.go departs from chaincode.go: its request struct carries byte
    fields, its request row has eleven columns against the same twelve-column
    `BrokerageRequests` schema, and its `Init` creates a second table, `User`.
    Its index, enumeration, lookup and resource functions are the same as
    chaincode.go's and are modelled once, in `IndexManager` and `Records`. */
module LegacyChaincode {
  import opened Base
  import opened Store
  import IndexManager
  import Json
  import Brokerage

  /** cc1.go's request: the document-like fields are byte slices, and there is
      a `Rights` field with no column. */
  datatype LegacyRequest = LegacyRequest(
    requestId: string,
    submitter: string,
    approver: string,
    documents: Bytes,
    personalDetails: Bytes,
    kycDetails: Bytes,
    status: string,
    docValidationReport: Bytes,
    facialValidation: Bytes,
    video: Bytes,
    timeStamps: Bytes,
    meeting: string,
    rights: Bytes)

  /** cc1.go's `get_current_time`: a fresh record with only `Submit` set, to
      the clock reading `now`. Its second member is named `Meeting`, so
      the blob is not chaincode.go's timestamp record. */
  function LegacyCurrentTime(now: string): (r: Bytes)
    ensures Json.DecodeObject(r) == Some([("Submit", now), ("Meeting", ""), ("FinalStatus", "")])
    ensures Brokerage.DecodeTimeStamp(r) == None
  {
    Json.ObjectRoundTrip([("Submit", now), ("Meeting", ""), ("FinalStatus", "")]);
    Json.EncodeObject([("Submit", now), ("Meeting", ""), ("FinalStatus", "")])
  }

  /** The row cc1.go's `create_brokerage_request` builds. The first eight
      columns are those of chaincode.go's row; FacialValidation and Video are
      replaced by empty STRING cells where the schema declares BYTES, the
      timestamp comes tenth, and there is no Meeting column. */
  function LegacyColumns(b: LegacyRequest, timeStamps: Bytes): (r: Row)
    ensures |r| == 11 && |r| == |Brokerage.Schema| - 1
    ensures forall i :: 0 <= i < 8 ==> r[i] == Brokerage.ToColumns(AsRequest(b), timeStamps)[i]
    ensures r[8] == StrCol("") && Brokerage.Schema[8].ctype == BYTES
    ensures r[9] == StrCol("") && Brokerage.Schema[9].ctype == BYTES
    ensures r[10] == BytesCol(timeStamps)
    ensures |r| <= Brokerage.MeetingPos
  {
    [ StrCol(b.requestId),
      StrCol(b.submitter),
      StrCol(b.approver),
      BytesCol(b.documents),
      BytesCol(b.personalDetails),
      BytesCol(b.kycDetails),
      StrCol(b.status),
      BytesCol(b.docValidationReport),
      StrCol(""),
      StrCol(""),
      BytesCol(timeStamps) ]
  }

  /** The same request in chaincode.go's shape, fields carried over by name. */
  function AsRequest(b: LegacyRequest): Brokerage.Request {
    Brokerage.Request(b.requestId, b.submitter, b.approver, b.documents, b.personalDetails,
                      b.kycDetails, b.status, b.docValidationReport, b.facialValidation, b.video,
                      b.timeStamps, b.meeting, "")
  }

  /** The row fits the declared schema neither in arity nor in types: even
      with a twelfth column added it is still wrong at positions 8 and 9. */
  lemma LegacyRowMisfits(b: LegacyRequest, timeStamps: Bytes)
    ensures !Conforms(Brokerage.Schema, LegacyColumns(b, timeStamps))
    ensures forall c: Column :: !Conforms(Brokerage.Schema, LegacyColumns(b, timeStamps) + [c])
  {
  }

  /** cc1.go's `create_brokerage_request`, as far as it has a meaning: the
      request is decoded and its row offered to the ledger, which refuses it,
      so no request is ever stored. (The function's return statements do not
      compile, so no answer is modelled.) */
  function LegacyCreateRequest(led: Ledger, f: Faults, jsonData: string,
                               decode: string -> LegacyRequest, now: string): (r: Ledger)
    ensures Brokerage.TableName in led.tables ==>
      led.tables[Brokerage.TableName].schema == Brokerage.Schema ==> r == led
    ensures Brokerage.TableName !in led.tables ==> r == led
  {
    var b := decode(jsonData);
    var row := LegacyColumns(b, LegacyCurrentTime(now));
    LegacyRowMisfits(b, LegacyCurrentTime(now));
    var (tables, _) := InsertRow(led.tables, f, Brokerage.TableName, row);
    Ledger(led.state, tables)
  }

  const UserTableName := "User"

  /** The columns cc1.go's `Init` declares for the `User` table. */
  const UserSchema: seq<ColumnDef> := [
    ColumnDef("UserID", STRING, true),
    ColumnDef("FirstName", BYTES, false),
    ColumnDef("LastName", BYTES, false),
    ColumnDef("Address", BYTES, false),
    ColumnDef("Phone", STRING, false)
  ]

  /** cc1.go's `Init`: clears `_applications`, then creates
      `BrokerageRequests` and `User`. The error of the first creation is
      overwritten by the second before it is looked at, so the call fails
      exactly when the write or the `User` creation fails, and then with the
      message about the Brokerage Requests table. */
  function LegacyInit(led: Ledger, f: Faults): (r: (Ledger, Result<Bytes>))
    ensures IndexManager.ApplicationsIndex in f.writeFails ==> r == (led, Failure(LedgerFailed("PutState")))
    ensures IndexManager.ApplicationsIndex !in f.writeFails ==>
      IndexManager.ReadIndex(r.0.state, IndexManager.ApplicationsIndex) == []
    ensures r.1.Success? <==>
      && IndexManager.ApplicationsIndex !in f.writeFails
      && UserTableName !in f.createFails && UserTableName !in led.tables
    ensures r.1.Failure? && IndexManager.ApplicationsIndex !in f.writeFails ==>
      r.1.error == Failed("Failed creating Brokerage Requests Table")
    ensures r.1.Success? ==> UserTableName in r.0.tables && r.0.tables[UserTableName] == Table(UserSchema, map[])
    ensures IndexManager.ApplicationsIndex !in f.writeFails ==>
      (Brokerage.TableName in r.0.tables <==>
         Brokerage.TableName in led.tables || Brokerage.TableName !in f.createFails)
  {
    match PutState(led.state, f, IndexManager.ApplicationsIndex, IndexManager.EmptyIndex)
    case Failure(e) => (led, Failure(e))
    case Success(st) =>
      Json.StringsRoundTrip([]);
      var first := CreateTable(led.tables, f, Brokerage.TableName, Brokerage.Schema);
      var tables := if first.Success? then first.value else led.tables;
      match CreateTable(tables, f, UserTableName, UserSchema)
      case Failure(_) => (Ledger(st, tables), Failure(Failed("Failed creating Brokerage Requests Table")))
      case Success(tables') => (Ledger(st, tables'), Success(""))
  }

  /** A failed creation of `BrokerageRequests` goes unreported: `Init`
      succeeds and the table does not exist. */
  lemma LegacyInitHidesFirstFailure(led: Ledger, f: Faults)
    requires IndexManager.ApplicationsIndex !in f.writeFails
    requires Brokerage.TableName in f.createFails && Brokerage.TableName !in led.tables
    requires UserTableName !in f.createFails && UserTableName !in led.tables
    ensures LegacyInit(led, f).1 == Success("")
    ensures Brokerage.TableName !in LegacyInit(led, f).0.tables
  {
  }
}
