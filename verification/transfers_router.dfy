/** The decision rules of the transfers endpoints: what each request does to the
    record store and what it answers. The fresh id and the clock of a create are
    parameters; starting the worker in the background is not part of the answer. */
module TransfersRouter {
  import opened Wrappers
  import opened Json
  import opened Records
  import DriveDetector
  import Urls
  import Worker
  import Workflows

  /** A response: a body, or an `HTTPException` with its status code and detail. */
  datatype Reply<T> = Body(value: T) | Error(code: int, detail: string)

  /** The store after a request, and the response. */
  datatype Answer<T> = Answer(db: Db, reply: Reply<T>)

  const NotFound := "Transfer not found"
  const Cancelled := "Transfer cancelled successfully"
  const UrlRequired := "URL is required"

  /** `create_transfer`: an invalid URL is refused with 400 and the validator's reason
      before anything is written; a valid one adds a new PENDING row under the fresh
      id with the detected drive type, which is also the body. */
  function CreateTransfer(db: Db, url: string, freshId: string, now: Time, uc: Urls.Unicode): (r: Answer<Transfer>)
    requires freshId !in db.transfers
    ensures !DriveDetector.ValidateDriveUrl(url, uc).valid ==>
      r.db == db && r.reply.Error? && r.reply.code == 400
      && DriveDetector.ValidateDriveUrl(url, uc).errorMessage == Some(r.reply.detail)
    ensures DriveDetector.ValidateDriveUrl(url, uc).valid ==>
      && DriveDetector.ValidateDriveUrl(url, uc).driveType.Some?
      && r.reply == Body(NewTransfer(freshId, url, DriveDetector.ValidateDriveUrl(url, uc).driveType.value, now))
      && r.db == db.(transfers := db.transfers[freshId := r.reply.value])
    ensures r.reply.Body? ==> r.reply.value.status == PENDING && r.reply.value.sourceUrl == url
  {
    var v := DriveDetector.ValidateDriveUrl(url, uc);
    DriveDetector.ValidationSpec(url, uc);
    if !v.valid then Answer(db, Error(400, v.errorMessage.value))
    else
      var t := NewTransfer(freshId, url, v.driveType.value, now);
      Answer(db.(transfers := db.transfers[freshId := t]), Body(t))
  }

  /** `get_transfer`: the row, or 404. */
  function GetTransfer(db: Db, id: string): (r: Reply<Transfer>)
    ensures r.Body? <==> id in db.transfers
    ensures r.Body? ==> r.value == db.transfers[id]
    ensures r.Error? ==> r == Error(404, NotFound)
  {
    if id in db.transfers then Body(db.transfers[id]) else Error(404, NotFound)
  }

  /** The file rows of one transfer, in table order. */
  function FilesOf(files: seq<FileTransfer>, id: string): (r: seq<FileTransfer>)
    ensures |r| <= |files|
    ensures forall k :: 0 <= k < |r| ==> r[k].transferId == id && r[k] in files
    ensures forall k :: 0 <= k < |files| && files[k].transferId == id ==> files[k] in r
    ensures (forall k :: 0 <= k < |files| ==> files[k].transferId == id) ==> r == files
  {
    if |files| == 0 then []
    else (if files[0].transferId == id then [files[0]] else []) + FilesOf(files[1..], id)
  }

  /** `get_transfer_files`: 404 for an unknown transfer, else its file rows. */
  function GetTransferFiles(db: Db, id: string): (r: Reply<seq<FileTransfer>>)
    ensures r.Body? <==> id in db.transfers
    ensures r.Body? ==> r.value == FilesOf(db.files, id)
    ensures r.Error? ==> r == Error(404, NotFound)
  {
    if id in db.transfers then Body(FilesOf(db.files, id)) else Error(404, NotFound)
  }

  /** `cancel_transfer`: 404 for an unknown id, 400 naming the status for a finished
      transfer, otherwise the status alone becomes CANCELLED (no time is stamped). */
  function CancelTransfer(db: Db, id: string): (r: Answer<string>)
    ensures id !in db.transfers ==> r == Answer(db, Error(404, NotFound))
    ensures id in db.transfers && IsTerminal(db.transfers[id].status) ==>
      r == Answer(db, Error(400, "Cannot cancel transfer with status: " + StatusValue(db.transfers[id].status)))
    ensures r.reply.Body? <==> id in db.transfers && !IsTerminal(db.transfers[id].status)
    ensures r.reply.Body? ==>
      r.reply.value == Cancelled && r.db.files == db.files && r.db.transfers.Keys == db.transfers.Keys
      && r.db.transfers[id] == db.transfers[id].(status := CANCELLED)
      && forall other :: other in db.transfers && other != id ==> r.db.transfers[other] == db.transfers[other]
  {
    if id !in db.transfers then Answer(db, Error(404, NotFound))
    else
      var t := db.transfers[id];
      if IsTerminal(t.status) then Answer(db, Error(400, "Cannot cancel transfer with status: " + StatusValue(t.status)))
      else Answer(db.(transfers := db.transfers[id := t.(status := CANCELLED)]), Body(Cancelled))
  }

  /** Cancelling twice: the second request is refused and changes nothing. */
  lemma CancelTwice(db: Db, id: string)
    requires CancelTransfer(db, id).reply.Body?
    ensures var once := CancelTransfer(db, id).db;
      CancelTransfer(once, id) == Answer(once, Error(400, "Cannot cancel transfer with status: cancelled"))
  {
  }

  /** A transfer just created can be cancelled. */
  lemma CreatedCanBeCancelled(db: Db, url: string, freshId: string, now: Time, uc: Urls.Unicode)
    requires freshId !in db.transfers && DriveDetector.ValidateDriveUrl(url, uc).valid
    ensures CancelTransfer(CreateTransfer(db, url, freshId, now, uc).db, freshId).reply == Body(Cancelled)
  {
  }

  /** Nothing in the worker reads the cancellation: its next update overwrites the
      CANCELLED status. */
  lemma CancelNotHonoured(db: Db, id: string, now: Time)
    requires CancelTransfer(db, id).reply.Body?
    ensures Worker.UpdateProgress(CancelTransfer(db, id).db, id, TRANSFERRING, [], now).transfers[id].status == TRANSFERRING
  {
  }

  /** One `file_details` entry. */
  function FileDetail(f: FileTransfer): (r: Json)
    ensures r.JObj? && r.fields.Keys == {"name", "status", "size", "bytes_transferred"}
    ensures r.fields["size"] == JNull <==> f.fileSize.None?
  {
    JObj(map[
      "name" := JStr(f.fileName),
      "status" := JStr(FileStatusValue(f.status)),
      "size" := (match f.fileSize case Some(n) => JInt(n) case None => JNull),
      "bytes_transferred" := JInt(f.bytesTransferred)])
  }

  /** An optional string as JSON. */
  function OptStr(s: Option<string>): Json {
    match s
    case Some(v) => JStr(v)
    case None => JNull
  }

  /** The snapshot `get_transfer_status` answers for a known row. */
  function Snapshot(id: string, t: Transfer, files: seq<FileTransfer>): (r: Json)
    ensures r.JObj? && r.fields.Keys == Workflows.PayloadKeys + {"file_details", "error_message"}
    ensures r.fields["error_message"] == OptStr(t.errorMessage)
    ensures var mine := FilesOf(files, id);
      r.fields["file_details"] == JList(seq(|mine|, k requires 0 <= k < |mine| => FileDetail(mine[k])))
  {
    var mine := FilesOf(files, id);
    JObj(map[
      "transfer_id" := JStr(id),
      "status" := JStr(StatusValue(t.status)),
      "overall_progress" := JNum(t.overallProgress),
      "files_completed" := JInt(t.filesCompleted),
      "total_files" := JInt(t.totalFiles),
      "current_file" :=
        if Truthy(t.currentFileName)
        then JObj(map["name" := JStr(t.currentFileName.value), "progress" := JNum(t.currentFileProgress)])
        else JNull,
      "file_details" := JList(seq(|mine|, k requires 0 <= k < |mine| => FileDetail(mine[k]))),
      "error_message" := OptStr(t.errorMessage)])
  }

  /** `get_transfer_status`: 404 for an unknown id, else the snapshot. */
  function GetTransferStatus(db: Db, id: string): (r: Reply<Json>)
    ensures r.Body? <==> id in db.transfers
    ensures r.Error? ==> r == Error(404, NotFound)
    ensures r.Body? ==> r.value == Snapshot(id, db.transfers[id], db.files)
  {
    if id in db.transfers then Body(Snapshot(id, db.transfers[id], db.files)) else Error(404, NotFound)
  }

  /** The snapshot holds one detail per file row of the transfer, and agrees with the
      progress broadcast on every key they share: `current_file` is absent exactly
      when no current file name is set. */
  lemma SnapshotSpec(db: Db, id: string)
    requires id in db.transfers
    ensures var s, p := GetTransferStatus(db, id).value, Workflows.ProgressPayload(id, db.transfers[id]);
      && (forall key :: key in Workflows.PayloadKeys ==> s.fields[key] == p.fields[key])
      && s.fields["file_details"].JList? && |s.fields["file_details"].items| == |FilesOf(db.files, id)|
      && (s.fields["current_file"] == JNull <==> !Truthy(db.transfers[id].currentFileName))
  {
  }

  /** Python truthiness of a JSON value. */
  predicate IsTruthy(j: Json) {
    match j
    case JNull => false
    case JBool(b) => b
    case JInt(i) => i != 0
    case JNum(x) => x != 0.0
    case JStr(s) => s != ""
    case JList(items) => items != []
    case JObj(fields) => fields != map[]
  }

  /** `validate_url`: 400 when `url` is missing or falsy; a string is validated; any
      other value fails inside the validator, whose catch-all answers invalid. */
  function ValidateUrl(body: map<string, Json>, uc: Urls.Unicode): (r: Reply<DriveDetector.Validation>)
    ensures r.Error? <==> "url" !in body || !IsTruthy(body["url"])
    ensures r.Error? ==> r == Error(400, UrlRequired)
    ensures "url" in body ==> r == ValidateValue(body["url"], uc)
  {
    if "url" !in body then Error(400, UrlRequired) else ValidateValue(body["url"], uc)
  }

  /** The answer for a present `url` value. */
  function ValidateValue(u: Json, uc: Urls.Unicode): (r: Reply<DriveDetector.Validation>)
    ensures r.Error? <==> !IsTruthy(u)
    ensures r.Error? ==> r == Error(400, UrlRequired)
    ensures u.JStr? && u.s != "" ==> r.Body? && r.value == DriveDetector.ValidateDriveUrl(u.s, uc)
    ensures r.Body? && !u.JStr? ==> r.value == NoLower(u) && !r.value.valid && r.value.driveType.None?
  {
    if !IsTruthy(u) then Error(400, UrlRequired)
    else if u.JStr? then Body(DriveDetector.ValidateDriveUrl(u.s, uc))
    else Body(NoLower(u))
  }

  /** The validator's catch-all answer when the value has no `lower` method. */
  function NoLower(u: Json): (v: DriveDetector.Validation)
    ensures !v.valid && v.driveType.None? && !v.accessible
    ensures v.errorMessage == Some("Validation error: '" + TypeName(u) + "' object has no attribute 'lower'")
  {
    DriveDetector.Validation(false, None, false,
      Some("Validation error: '" + TypeName(u) + "' object has no attribute 'lower'"))
  }
}
