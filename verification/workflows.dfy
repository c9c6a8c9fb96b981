/** The Prefect variant of the pipeline (`data_transfer_workflow` and its tasks). It
    runs on the worker's store and services but differs in four rules: its
    `update_progress` stamps no times and broadcasts the row, there is no shortcut for
    an empty source, every file is downloaded by its path and re-uploaded, and a file
    row goes from pending straight to its outcome. */
module Workflows {
  import opened Wrappers
  import opened Json
  import opened Records
  import Connections
  import DriveDetector
  import GoogleDrive
  import NotebookLM
  import Dropbox
  import OneDrive
  import Worker

  // ---- update_progress ----

  /** One row after the flow's `update_progress(status, **kwargs)`: the status and
      the keyword arguments; `started_at` is never set, and `completed_at` only by a
      keyword argument. */
  function Touch(t: Transfer, status: TransferStatus, us: seq<Update>): (r: Transfer)
    ensures r.status == status && r.startedAt == t.startedAt
    ensures (forall k :: 0 <= k < |us| ==> !us[k].CompletedAt?) ==> r.completedAt == t.completedAt
  {
    ApplyUpdates(t, us).(status := status)
  }

  /** The flow's update is the worker's without its two time stamps. */
  lemma TouchIsStampWithoutTimes(t: Transfer, status: TransferStatus, us: seq<Update>, now: Time)
    ensures Worker.Stamp(t, status, us, now).(startedAt := t.startedAt, completedAt := Touch(t, status, us).completedAt)
      == Touch(t, status, us)
    ensures !IsTerminal(status) ==> Worker.Stamp(t, status, us, now).completedAt == Touch(t, status, us).completedAt
    ensures status != PENDING && t.startedAt.None? ==> Worker.Stamp(t, status, us, now).startedAt != Touch(t, status, us).startedAt
  {
  }

  /** The store after the flow's `update_progress`; an unknown id changes nothing. */
  function UpdateProgress(db: Db, id: string, status: TransferStatus, us: seq<Update>): (r: Db)
    ensures r.files == db.files && r.transfers.Keys == db.transfers.Keys
    ensures id !in db.transfers ==> r == db
    ensures id in db.transfers ==> r.transfers[id] == Touch(db.transfers[id], status, us)
  {
    if id in db.transfers then db.(transfers := db.transfers[id := Touch(db.transfers[id], status, us)]) else db
  }

  const PayloadKeys: set<string> :=
    {"transfer_id", "status", "overall_progress", "files_completed", "total_files", "current_file"}

  /** The progress message broadcast after an update, read off the updated row. */
  function ProgressPayload(id: string, t: Transfer): (r: Json)
    ensures r.JObj? && r.fields.Keys == PayloadKeys
    ensures r.fields["transfer_id"] == JStr(id) && r.fields["status"] == JStr(StatusValue(t.status))
    ensures r.fields["files_completed"] == JInt(t.filesCompleted) && r.fields["total_files"] == JInt(t.totalFiles)
    ensures r.fields["overall_progress"] == JNum(t.overallProgress)
    ensures r.fields["current_file"] == JNull <==> !Truthy(t.currentFileName)
    ensures Truthy(t.currentFileName) ==>
      r.fields["current_file"] == JObj(map["name" := JStr(t.currentFileName.value), "progress" := JNum(t.currentFileProgress)])
  {
    JObj(map[
      "transfer_id" := JStr(id),
      "status" := JStr(StatusValue(t.status)),
      "overall_progress" := JNum(t.overallProgress),
      "files_completed" := JInt(t.filesCompleted),
      "total_files" := JInt(t.totalFiles),
      "current_file" :=
        if Truthy(t.currentFileName)
        then JObj(map["name" := JStr(t.currentFileName.value), "progress" := JNum(t.currentFileProgress)])
        else JNull])
  }

  /** The store, the subscriber registry (absent when no manager is registered) and
      the message delivered, after one update. */
  datatype Notified = Notified(db: Db, manager: Option<Connections.Registry>, sent: Option<Connections.Delivery>)

  /** `update_progress` with its broadcast: an unknown id or a missing manager sends
      nothing; otherwise the manager is handed the updated row's payload, which reaches
      the id's socket if it has an open one. */
  function UpdateAndNotify(db: Db, manager: Option<Connections.Registry>, id: string, status: TransferStatus, us: seq<Update>): (r: Notified)
    ensures r.db == UpdateProgress(db, id, status, us)
    ensures manager.None? || id !in db.transfers ==> r.manager == manager && r.sent.None?
    ensures manager.Some? ==> r.manager.Some? && Connections.OthersUnchanged(manager.value, r.manager.value, id)
    ensures r.sent.Some? <==> manager.Some? && id in db.transfers && id in manager.value && manager.value[id].open
    ensures r.sent.Some? ==>
      r.sent.value == Connections.Delivery(manager.value[id].handle, ProgressPayload(id, r.db.transfers[id]))
      && r.sent.value.data.fields["status"] == JStr(StatusValue(status))
  {
    var db' := UpdateProgress(db, id, status, us);
    if manager.None? || id !in db.transfers then Notified(db', manager, None)
    else
      var s := Connections.Send(manager.value, id, ProgressPayload(id, db'.transfers[id]));
      Notified(db', Some(s.registry), s.delivered)
  }

  // ---- The Prefect tasks ----

  /** `scan_source_drive`: SCANNING, list the source, record the count and one pending
      row per file. */
  function ScanSourceDrive(db: Db, env: Worker.Env, id: string, url: string, drive: DriveType): (r: Worker.Step<seq<FileInfo>>)
    ensures r.db.transfers.Keys == db.transfers.Keys
    ensures id !in db.transfers ==> r.db == db && r.out.Err?
    ensures r.out.Err? ==> r.db.files == db.files
    ensures r.out.Ok? ==>
      && id in db.transfers && Worker.SourceListing(env, drive, url, Worker.AsWritten) == r.out
      && r.db.files == db.files + PendingRecords(id, r.out.value)
      && r.db.transfers[id].totalFiles == |r.out.value| && r.db.transfers[id].status == SCANNING
    ensures id in db.transfers ==>
      r.db.transfers[id].startedAt == db.transfers[id].startedAt
      && r.db.transfers[id].completedAt == db.transfers[id].completedAt
  {
    var db1 := UpdateProgress(db, id, SCANNING, []);
    match Worker.SourceListing(env, drive, url, Worker.AsWritten)
    case Err(e) => Worker.Step(db1, Err(e))
    case Ok(files) =>
      if id !in db1.transfers then Worker.Step(db1, Err(Worker.NoRowMessage))
      else
        var t := db1.transfers[id].(totalFiles := |files|);
        var db2 := Db(db1.transfers[id := t], db1.files + PendingRecords(id, files));
        Worker.Step(UpdateProgress(db2, id, SCANNING, [TotalFiles(|files|)]), Ok(files))
  }

  /** The flow's scan and the worker's answer alike and write the same file rows; the
      transfer rows differ only in the start time the worker sets. */
  lemma ScanAgreesWithWorker(db: Db, env: Worker.Env, id: string, url: string, drive: DriveType)
    ensures var w, f := Worker.ScanSourceDrive(db, env, id, url, drive, Worker.AsWritten), ScanSourceDrive(db, env, id, url, drive);
      && w.out == f.out && w.db.files == f.db.files
      && (id in db.transfers ==> f.db.transfers[id] == w.db.transfers[id].(startedAt := db.transfers[id].startedAt))
  {
    if id in db.transfers {
      var t := db.transfers[id];
      TouchIsStampWithoutTimes(t, SCANNING, [], env.now);
      var s1, f1 := Worker.Stamp(t, SCANNING, [], env.now), Touch(t, SCANNING, []);
      var n := match Worker.SourceListing(env, drive, url, Worker.AsWritten) case Ok(fs) => |fs| case Err(_) => 0;
      TouchIsStampWithoutTimes(s1.(totalFiles := n), SCANNING, [TotalFiles(n)], env.now);
      TouchIsStampWithoutTimes(f1.(totalFiles := n), SCANNING, [TotalFiles(n)], env.now);
    }
  }

  /** `create_landing_zone`: a folder under the configured landing zone, recorded on
      the row with status TRANSFERRING. */
  function CreateLandingZone(db: Db, env: Worker.Env, id: string): (r: Worker.Step<string>)
    ensures r.out == GoogleDrive.CreateFolder(env.google, Worker.LandingZoneName(env, id), None)
    ensures r.db.files == db.files && r.db.transfers.Keys == db.transfers.Keys
    ensures r.out.Err? ==> r.db == db
    ensures id in db.transfers ==>
      var t, u := db.transfers[id], r.db.transfers[id];
      u.startedAt == t.startedAt && u.completedAt == t.completedAt
      && (r.out.Ok? ==> u.landingZoneFolderId == Some(r.out.value) && u.status == TRANSFERRING)
  {
    match GoogleDrive.CreateFolder(env.google, Worker.LandingZoneName(env, id), None)
    case Err(e) => Worker.Step(db, Err(e))
    case Ok(folder) => Worker.Step(UpdateProgress(db, id, TRANSFERRING, [LandingZoneFolderId(folder)]), Ok(folder))
  }

  /** The download of one file: by its path, from the source drive's service. */
  function Download(env: Worker.Env, info: FileInfo, source: DriveType): AdapterCall<Bytes> {
    match source
    case GOOGLE_DRIVE => GoogleDrive.DownloadFile(env.google, info.path, true)
    case DROPBOX => Dropbox.DownloadFile(info.path, true)
    case ONEDRIVE => OneDrive.DownloadFile(info.path, true)
  }

  /** A finished copy: the uploaded file's id and the downloaded length. */
  datatype Copied = Copied(destination: string, length: nat)

  /** The adapter calls for one file: the download, then the upload of its content
      into the landing zone, both reporting progress. */
  function FileCall(env: Worker.Env, info: FileInfo, landing: string, source: DriveType): (r: AdapterCall<Copied>)
    ensures Download(env, info, source).result.Err? ==> r == AdapterCall(Download(env, info, source).callbacks, Err(Download(env, info, source).result.error))
    ensures r.result.Ok? ==>
      var content := Download(env, info, source).result.value;
      GoogleDrive.UploadFile(env.google, info.name, content, landing, true).result == Ok(r.result.value.destination)
      && r.result.value.length == |content|
  {
    var download := Download(env, info, source);
    match download.result
    case Err(e) => AdapterCall(download.callbacks, Err(e))
    case Ok(content) =>
      var upload := GoogleDrive.UploadFile(env.google, info.name, content, landing, true);
      AdapterCall(download.callbacks + upload.callbacks,
        match upload.result
        case Ok(dest) => Ok(Copied(dest, |content|))
        case Err(e) => Err(e))
  }

  /** Unlike the worker, the flow needs no `id` in the descriptor: from a placeholder
      source such a file is copied when the upload succeeds, where the worker fails it. */
  lemma FlowCopiesWithoutId(env: Worker.Env, info: FileInfo, landing: string)
    requires info.id.None?
    ensures Worker.FileCall(env, info, landing, DROPBOX).result == Err(Worker.MissingIdMessage)
    ensures FileCall(env, info, landing, DROPBOX).result.Ok? <==>
      GoogleDrive.UploadFile(env.google, info.name, Dropbox.PlaceholderContent, landing, true).result.Ok?
  {
  }

  /** The edit that settles a file row. */
  function Settle(now: Time, call: AdapterCall<Copied>): FileEdit {
    match call.result
    case Ok(c) => Complete(c.destination, c.length, now)
    case Err(e) => Fail(e)
  }

  /** A file row after its file: completed with the destination and the downloaded
      length, or failed with the message; it is never marked in progress or started. */
  lemma FileRowOutcome(f: FileTransfer, now: Time, call: AdapterCall<Copied>)
    ensures var r := ApplyEdit(f, Settle(now, call));
      && r.startedAt == f.startedAt && r.status != InProgress && r.status != Pending
      && (r.status == Completed <==> call.result.Ok?)
      && (call.result.Ok? ==>
            r.destinationPath == Some(call.result.value.destination) && r.bytesTransferred == call.result.value.length
            && r.completedAt == Some(now))
      && (call.result.Err? ==> r.status == Failed && r.errorMessage == Some(call.result.error) && r.completedAt == f.completedAt)
  {
  }

  /** The transfer row through one file's copy: its name with a zero percentage, then
      each callback's percentage; the counters and the times are untouched. */
  function RowDuringFile(t: Transfer, name: string, callbacks: seq<Progress>): (r: Transfer)
    ensures r.status == TRANSFERRING && r.startedAt == t.startedAt && r.completedAt == t.completedAt
    ensures r.totalFiles == t.totalFiles && r.filesCompleted == t.filesCompleted && r.overallProgress == t.overallProgress
    ensures r.currentFileName == Some(name)
    ensures r.currentFileProgress == if |callbacks| == 0 then 0.0 else CallbackPercent(callbacks[|callbacks| - 1])
    decreases |callbacks|
  {
    if |callbacks| == 0 then
      ApplyPair(CurrentFileName(name), CurrentFileProgress(0.0));
      Touch(t, TRANSFERRING, [CurrentFileName(name), CurrentFileProgress(0.0)])
    else
      var p := callbacks[|callbacks| - 1];
      Touch(RowDuringFile(t, name, callbacks[..|callbacks| - 1]), TRANSFERRING, [CurrentFileProgress(CallbackPercent(p))])
  }

  /** `transfer_single_file`: the transfer row shows the file and its percentages; the
      first file row with this transfer id and name is settled; the exception, if any,
      is re-raised. */
  function TransferSingleFile(db: Db, env: Worker.Env, id: string, info: FileInfo, landing: string, source: DriveType): (r: Worker.Step<Copied>)
    ensures r.out == FileCall(env, info, landing, source).result
    ensures r.db.transfers.Keys == db.transfers.Keys && SameKeys(db.files, r.db.files)
    ensures id in db.transfers ==> r.db.transfers[id] == RowDuringFile(db.transfers[id], info.name, FileCall(env, info, landing, source).callbacks)
    ensures FirstMatch(db.files, id, info.name).None? ==> r.db.files == db.files
    ensures FirstMatch(db.files, id, info.name).Some? ==>
      var k := FirstMatch(db.files, id, info.name).value;
      && (r.db.files[k].status == Completed <==> r.out.Ok?)
      && (r.out.Err? ==> r.db.files[k].status == Failed && r.db.files[k].errorMessage == Some(r.out.error))
      && (r.out.Ok? ==> r.db.files[k].destinationPath == Some(r.out.value.destination)
                        && r.db.files[k].bytesTransferred == r.out.value.length)
  {
    var call := FileCall(env, info, landing, source);
    var rows := if id in db.transfers then db.transfers[id := RowDuringFile(db.transfers[id], info.name, call.callbacks)] else db.transfers;
    match FirstMatch(db.files, id, info.name)
    case None => Worker.Step(Db(rows, db.files), call.result)
    case Some(k) =>
      FileRowOutcome(db.files[k], env.now, call);
      Worker.Step(Db(rows, EditFirst(db.files, id, info.name, Settle(env.now, call))), call.result)
  }

  // ---- The loop of the flow ----

  /** The adapter calls for every file, in order. */
  function FileCalls(env: Worker.Env, files: seq<FileInfo>, landing: string, source: DriveType): (r: seq<AdapterCall<Copied>>)
    ensures |r| == |files|
    ensures forall k :: 0 <= k < |files| ==> r[k] == FileCall(env, files[k], landing, source)
  {
    seq(|files|, k requires 0 <= k < |files| => FileCall(env, files[k], landing, source))
  }

  /** The row after the file at position `i`: its copy, then, if it succeeded, the
      position-based tally `i + 1` and its share of the `n` files. */
  function RowAfterFile(t: Transfer, info: FileInfo, call: AdapterCall<Copied>, i: nat, n: nat): (r: Transfer)
    requires i < n
    ensures r.totalFiles == t.totalFiles && r.startedAt == t.startedAt && r.completedAt == t.completedAt
    ensures call.result.Ok? ==> r.filesCompleted == i + 1 && r.overallProgress == OverallPercent(r.filesCompleted, n)
    ensures call.result.Err? ==> r.filesCompleted == t.filesCompleted && r.overallProgress == t.overallProgress
  {
    var during := RowDuringFile(t, info.name, call.callbacks);
    if call.result.Ok? then
      ApplyPair(FilesCompleted(i + 1), OverallProgress(OverallPercent(i + 1, n)));
      Touch(during, TRANSFERRING, [FilesCompleted(i + 1), OverallProgress(OverallPercent(i + 1, n))])
    else during
  }

  /** The transfer row through the loop: a failure is skipped, and `files_completed`
      ends at one past the position of the last success, with its share as the
      overall percentage, or untouched when nothing succeeded. */
  function RowLoop(t: Transfer, files: seq<FileInfo>, calls: seq<AdapterCall<Copied>>, i: nat): (r: Transfer)
    requires |calls| == |files| && i <= |files|
    ensures r.totalFiles == t.totalFiles && r.startedAt == t.startedAt && r.completedAt == t.completedAt
    ensures LastOk(calls, i).Some? ==>
      r.filesCompleted == LastOk(calls, i).value + 1 && r.overallProgress == OverallPercent(r.filesCompleted, |files|)
    ensures LastOk(calls, i).None? ==> r.filesCompleted == t.filesCompleted && r.overallProgress == t.overallProgress
    decreases |files| - i
  {
    if i == |files| then t
    else RowLoop(RowAfterFile(t, files[i], calls[i], i, |files|), files, calls, i + 1)
  }

  /** A position-based tally never undercounts: the last success's position is at
      least the number of successes, and above it as soon as an earlier file failed. */
  lemma {:induction false} PositionBoundsCount(calls: seq<AdapterCall<Copied>>, i: nat)
    requires i <= |calls|
    ensures LastOk(calls, i).Some? ==> Successes(calls, i) <= LastOk(calls, i).value + 1 - i
    ensures LastOk(calls, i).None? ==> Successes(calls, i) == 0
    ensures LastOk(calls, i).Some? && (exists k :: i <= k < LastOk(calls, i).value && calls[k].result.Err?) ==>
      Successes(calls, i) < LastOk(calls, i).value + 1 - i
    decreases |calls| - i
  {
    if i < |calls| {
      PositionBoundsCount(calls, i + 1);
      if LastOk(calls, i).Some? && LastOk(calls, i + 1).Some? {
        var last := LastOk(calls, i).value;
        if exists k :: i <= k < last && calls[k].result.Err? {
          var k :| i <= k < last && calls[k].result.Err?;
          if k > i {
            assert exists k' :: i + 1 <= k' < last && calls[k'].result.Err?;
          }
        }
      }
    }
  }

  /** The file table through the loop: each file settles its own first row. */
  function FilesLoop(table: seq<FileTransfer>, now: Time, tid: string, files: seq<FileInfo>, calls: seq<AdapterCall<Copied>>, i: nat): (r: seq<FileTransfer>)
    requires |calls| == |files| && i <= |files|
    ensures SameKeys(table, r)
    decreases |files| - i
  {
    if i == |files| then table
    else FilesLoop(EditFirst(table, tid, files[i].name, Settle(now, calls[i])), now, tid, files, calls, i + 1)
  }

  /** The loop of the flow: every file is tried, a failure only logged. */
  function TransferLoop(db: Db, env: Worker.Env, id: string, files: seq<FileInfo>, calls: seq<AdapterCall<Copied>>): (r: Db)
    requires |calls| == |files|
    ensures r.transfers.Keys == db.transfers.Keys && SameKeys(db.files, r.files)
    ensures id in db.transfers ==>
      var t, u := db.transfers[id], r.transfers[id];
      && u.startedAt == t.startedAt && u.completedAt == t.completedAt && u.totalFiles == t.totalFiles
      && u.filesCompleted == (if LastOk(calls, 0).Some? then LastOk(calls, 0).value + 1 else t.filesCompleted)
      && u.filesCompleted <= (if LastOk(calls, 0).Some? then |files| else t.filesCompleted)
  {
    var rows := if id in db.transfers then db.transfers[id := RowLoop(db.transfers[id], files, calls, 0)] else db.transfers;
    Db(rows, FilesLoop(db.files, env.now, id, files, calls, 0))
  }

  /** The transfer row through the NotebookLM stage when the listing succeeds:
      UPLOADING, then COMPLETED with the notebook id and the completion time passed as
      keyword arguments. */
  function PublishedRow(t: Transfer, notebook: string, now: Time): (r: Transfer)
    ensures r.status == COMPLETED && r.notebookId == Some(notebook) && r.completedAt == Some(now)
    ensures r.startedAt == t.startedAt
  {
    ApplyPair(NotebookId(notebook), CompletedAt(now));
    Touch(Touch(t, UPLOADING, []), COMPLETED, [NotebookId(notebook), CompletedAt(now)])
  }

  /** `upload_to_notebooklm`: UPLOADING, a notebook named after the transfer, the
      landing zone's listing (whose failure is raised), each file offered to the
      notebook, then the published row. */
  function UploadToNotebookLM(db: Db, env: Worker.Env, id: string, landing: string): (r: Worker.Step<string>)
    ensures r.db.files == db.files && r.db.transfers.Keys == db.transfers.Keys
    ensures r.out.Err? <==> GoogleDrive.ListFilesInFolder(env.google, landing).Err?
    ensures r.out.Err? ==> r.out.error == GoogleDrive.ListFilesInFolder(env.google, landing).error
    ensures r.out.Ok? ==> r.out.value == NotebookLM.CreateNotebook(env.notebook, Worker.NotebookTitle(id))
    ensures id in db.transfers && r.out.Ok? ==> r.db.transfers[id] == PublishedRow(db.transfers[id], r.out.value, env.now)
    ensures id in db.transfers && r.out.Err? ==> r.db.transfers[id] == Touch(db.transfers[id], UPLOADING, [])
  {
    var db1 := UpdateProgress(db, id, UPLOADING, []);
    var notebook := NotebookLM.CreateNotebook(env.notebook, Worker.NotebookTitle(id));
    match GoogleDrive.ListFilesInFolder(env.google, landing)
    case Err(e) => Worker.Step(db1, Err(e))
    case Ok(_) => Worker.Step(UpdateProgress(db1, id, COMPLETED, [NotebookId(notebook), CompletedAt(env.now)]), Ok(notebook))
  }

  // ---- data_transfer_workflow ----

  /** The flow's effect on the store, and the notebook id it returns or the message
      it re-raises. */
  datatype Flow = Flow(db: Db, outcome: Result<string>)

  /** The outer handler: FAILED with the exception text, which is re-raised; no time
      is stamped. */
  function FailFlow(db: Db, id: string, e: string): (r: Flow)
    ensures r.outcome == Err(e) && r.db.files == db.files && r.db.transfers.Keys == db.transfers.Keys
    ensures id !in db.transfers ==> r.db == db
    ensures id in db.transfers ==>
      var t, u := db.transfers[id], r.db.transfers[id];
      u.status == FAILED && u.errorMessage == Some(e) && u.startedAt == t.startedAt && u.completedAt == t.completedAt
  {
    Flow(UpdateProgress(db, id, FAILED, [ErrorMessage(e)]), Err(e))
  }

  /** The flow after its landing zone exists: every file, then the NotebookLM stage. */
  function CopyAndPublish(db: Db, env: Worker.Env, id: string, files: seq<FileInfo>, drive: DriveType, landing: string): (r: Flow)
    ensures r.db.transfers.Keys == db.transfers.Keys
    ensures id !in db.transfers ==> r.db.transfers == db.transfers
    ensures id in db.transfers ==>
      var t, u := db.transfers[id], r.db.transfers[id];
      && u.startedAt == t.startedAt
      && (r.outcome.Err? ==> u.status == FAILED && u.errorMessage == Some(r.outcome.error) && u.completedAt == t.completedAt)
      && (r.outcome.Ok? ==> u.status == COMPLETED && u.notebookId == Some(r.outcome.value) && u.completedAt == Some(env.now))
  {
    var copied := TransferLoop(db, env, id, files, FileCalls(env, files, landing, drive));
    var up := UploadToNotebookLM(copied, env, id, landing);
    match up.out
    case Err(e) => FailFlow(up.db, id, e)
    case Ok(notebook) => Flow(up.db, Ok(notebook))
  }

  /** `data_transfer_workflow`: detect the drive, scan it, make the landing zone
      (whatever the file count), copy and publish; the first exception outside the
      per-file step marks the transfer FAILED. No run of the flow sets `started_at`;
      `completed_at` is set only on success. */
  function DataTransferWorkflow(db: Db, env: Worker.Env, id: string, url: string): (r: Flow)
    ensures id !in db.transfers ==> r.db == db && r.outcome.Err?
    ensures r.db.transfers.Keys == db.transfers.Keys
    ensures id in db.transfers ==>
      var t, u := db.transfers[id], r.db.transfers[id];
      && u.startedAt == t.startedAt
      && (r.outcome.Err? ==> u.status == FAILED && u.errorMessage == Some(r.outcome.error) && u.completedAt == t.completedAt)
      && (r.outcome.Ok? ==> u.status == COMPLETED && u.notebookId == Some(r.outcome.value) && u.completedAt == Some(env.now))
    ensures r.outcome.Ok? ==> GoogleDrive.CreateFolder(env.google, Worker.LandingZoneName(env, id), None).Ok?
  {
    match DriveDetector.DetectDriveType(url, env.unicode)
    case Err(e) => FailFlow(db, id, e)
    case Ok(drive) =>
      var scan := ScanSourceDrive(db, env, id, url, drive);
      match scan.out
      case Err(e) => FailFlow(scan.db, id, e)
      case Ok(files) =>
        var zone := CreateLandingZone(scan.db, env, id);
        match zone.out
        case Err(e) => FailFlow(zone.db, id, e)
        case Ok(landing) => CopyAndPublish(zone.db, env, id, files, drive, landing)
  }

  /** On a source with no files the worker stops early, COMPLETED without a notebook,
      while the flow still makes the landing zone and a notebook. */
  lemma EmptySourceDiffers(db: Db, env: Worker.Env, id: string, url: string)
    requires id in db.transfers && DriveDetector.DetectDriveType(url, env.unicode).Ok?
    requires Worker.SourceListing(env, DriveDetector.DetectDriveType(url, env.unicode).value, url, Worker.AsWritten) == Ok([])
    requires GoogleDrive.CreateFolder(env.google, Worker.LandingZoneName(env, id), None).Ok?
    requires GoogleDrive.ListFilesInFolder(env.google, GoogleDrive.CreateFolder(env.google, Worker.LandingZoneName(env, id), None).value).Ok?
    ensures Worker.ProcessTransfer(db, env, id, url, Worker.AsWritten).outcome == Ok(None)
    ensures DataTransferWorkflow(db, env, id, url).outcome == Ok(NotebookLM.CreateNotebook(env.notebook, Worker.NotebookTitle(id)))
  {
  }
}
