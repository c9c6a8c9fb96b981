/** The transfer orchestrator (`TransferWorker`): progress stamping, the scan, the
    landing zone, the per-file copy, the NotebookLM stage and the whole pipeline, as
    functions from the record store and the services to the new store and the outcome. */
module Worker {
  import opened Wrappers
  import opened Records
  import DriveDetector
  import Urls
  import GoogleDrive
  import NotebookLM
  import Dropbox
  import OneDrive

  /** The services the worker holds, and the clock: `now` is the instant every
      timestamp of a run reads, `stamp` the `%Y%m%d_%H%M%S` rendering of it. */
  datatype Env = Env(google: GoogleDrive.Drive, notebook: NotebookLM.Service, unicode: Urls.Unicode, now: Time, stamp: string)

  // ---- update_progress ----

  /** One row after `update_progress(status, **kwargs)`: the status is overwritten
      (a terminal row included), the keyword arguments applied, `started_at` set once
      on the first non-PENDING update, and `completed_at` re-stamped by every terminal
      update, whatever the keyword arguments said. */
  function Stamp(t: Transfer, status: TransferStatus, us: seq<Update>, now: Time): (r: Transfer)
    ensures r.status == status
    ensures t.startedAt.Some? ==> r.startedAt == t.startedAt
    ensures t.startedAt.None? ==> r.startedAt == (if status != PENDING then Some(now) else None)
    ensures IsTerminal(status) ==> r.completedAt == Some(now)
    ensures !IsTerminal(status) ==> r.completedAt == ApplyUpdates(t, us).completedAt
    ensures r.(status := t.status, startedAt := t.startedAt, completedAt := ApplyUpdates(t, us).completedAt)
      == ApplyUpdates(t, us)
  {
    var u := ApplyUpdates(t, us).(status := status);
    u.(startedAt := if status != PENDING && u.startedAt.None? then Some(now) else u.startedAt,
       completedAt := if IsTerminal(status) then Some(now) else u.completedAt)
  }

  /** `update_progress`: the row with that id is stamped; an unknown id changes nothing. */
  function UpdateProgress(db: Db, id: string, status: TransferStatus, us: seq<Update>, now: Time): (r: Db)
    ensures r.files == db.files && r.transfers.Keys == db.transfers.Keys
    ensures id !in db.transfers ==> r == db
    ensures id in db.transfers ==> r.transfers[id] == Stamp(db.transfers[id], status, us, now)
  {
    if id in db.transfers then db.(transfers := db.transfers[id := Stamp(db.transfers[id], status, us, now)])
    else db
  }

  /** An update touches its own row only. */
  lemma UpdateTouchesOneRow(db: Db, id: string, status: TransferStatus, us: seq<Update>, now: Time, other: string)
    requires other in db.transfers && other != id
    ensures UpdateProgress(db, id, status, us, now).transfers[other] == db.transfers[other]
  {
  }

  /** Once set, `started_at` survives any number of further updates. */
  lemma {:induction false} StartedAtStable(t: Transfer, steps: seq<(TransferStatus, seq<Update>, Time)>)
    requires t.startedAt.Some?
    ensures StampAll(t, steps).startedAt == t.startedAt
    decreases |steps|
  {
    if |steps| > 0 {
      StartedAtStable(t, steps[..|steps| - 1]);
    }
  }

  /** A sequence of updates to one row, in order. */
  function StampAll(t: Transfer, steps: seq<(TransferStatus, seq<Update>, Time)>): Transfer
    decreases |steps|
  {
    if |steps| == 0 then t
    else
      var last := steps[|steps| - 1];
      Stamp(StampAll(t, steps[..|steps| - 1]), last.0, last.1, last.2)
  }

  /** `b` keeps the start time `a` had, if any. */
  predicate Started(a: Transfer, b: Transfer) {
    a.startedAt.Some? ==> b.startedAt == a.startedAt
  }

  /** The run's counters and start time, which the per-file steps leave alone. */
  predicate SameCounters(a: Transfer, b: Transfer) {
    && a.totalFiles == b.totalFiles && a.filesCompleted == b.filesCompleted
    && a.overallProgress == b.overallProgress
    && (a.startedAt.Some? ==> b.startedAt == a.startedAt)
  }

  // ---- Steps of the pipeline ----

  /** A stage's effect on the store, and its return value or exception. */
  datatype Step<T> = Step(db: Db, out: Result<T>)

  /** Which program a run follows: the worker as written, or with the corrections
      its own docstrings and error handling evidently intend (the refused Google
      folder reported, `files_completed` counting successes, each file settling the
      row created for it). */
  datatype Build = AsWritten | Corrected

  /** The listing of the service for a drive type. */
  function SourceListing(env: Env, drive: DriveType, url: string, build: Build): Result<seq<FileInfo>> {
    match drive
    case GOOGLE_DRIVE => if build.AsWritten? then GoogleDrive.ListFiles(env.google, url) else GoogleDrive.ListFilesChecked(env.google, url)
    case DROPBOX => Dropbox.ListFiles(url)
    case ONEDRIVE => OneDrive.ListFiles(url)
  }

  /** The two builds list alike, except that the corrected one fails where the
      Google folder itself was refused. */
  lemma ListingsAgree(env: Env, drive: DriveType, url: string)
    ensures SourceListing(env, drive, url, Corrected).Ok? ==>
      SourceListing(env, drive, url, Corrected) == SourceListing(env, drive, url, AsWritten)
    ensures SourceListing(env, drive, url, Corrected) != SourceListing(env, drive, url, AsWritten) ==>
      drive == GOOGLE_DRIVE && env.google.client
      && env.google.api.tree(GoogleDrive.ExtractFolderId(url)).end.Refused?
  {
  }

  /** `str()` of the `AttributeError` from writing `total_files` on a missing row. */
  const NoRowMessage := "'NoneType' object has no attribute 'total_files'"

  /** `scan_source_drive`: SCANNING, list the source, record the count and one pending
      row per file. */
  function ScanSourceDrive(db: Db, env: Env, id: string, url: string, drive: DriveType, build: Build): (r: Step<seq<FileInfo>>)
    ensures r.out.Ok? ==>
      && id in db.transfers && id in r.db.transfers
      && SourceListing(env, drive, url, build) == r.out
      && r.db.files == db.files + PendingRecords(id, r.out.value)
      && r.db.transfers[id].totalFiles == |r.out.value|
      && r.db.transfers[id].status == SCANNING
    ensures r.out.Err? ==> r.db.files == db.files
    ensures r.db.transfers.Keys == db.transfers.Keys
    ensures id !in db.transfers ==> r.db == db && r.out.Err?
    ensures id in db.transfers ==>
      r.db.transfers[id].startedAt == (if db.transfers[id].startedAt.Some? then db.transfers[id].startedAt else Some(env.now))
  {
    var db1 := UpdateProgress(db, id, SCANNING, [], env.now);
    match SourceListing(env, drive, url, build)
    case Err(e) => Step(db1, Err(e))
    case Ok(files) =>
      if id !in db1.transfers then Step(db1, Err(NoRowMessage))
      else
        var t := db1.transfers[id].(totalFiles := |files|);
        var db2 := Db(db1.transfers[id := t], db1.files + PendingRecords(id, files));
        Step(UpdateProgress(db2, id, SCANNING, [TotalFiles(|files|)], env.now), Ok(files))
  }

  /** The landing zone's folder name. */
  function LandingZoneName(env: Env, id: string): string {
    "ftransport_" + id + "_" + env.stamp
  }

  /** `create_landing_zone`: a folder under the configured landing zone, recorded on
      the row with status TRANSFERRING. */
  function CreateLandingZone(db: Db, env: Env, id: string): (r: Step<string>)
    ensures r.out == GoogleDrive.CreateFolder(env.google, LandingZoneName(env, id), None)
    ensures r.out.Err? ==> r.db == db
    ensures r.db.files == db.files
    ensures id in db.transfers ==> id in r.db.transfers && Started(db.transfers[id], r.db.transfers[id])
    ensures r.out.Ok? && id in db.transfers ==>
      r.db.transfers[id].landingZoneFolderId == Some(r.out.value) && r.db.transfers[id].status == TRANSFERRING
  {
    match GoogleDrive.CreateFolder(env.google, LandingZoneName(env, id), None)
    case Err(e) => Step(db, Err(e))
    case Ok(folder) => Step(UpdateProgress(db, id, TRANSFERRING, [LandingZoneFolderId(folder)], env.now), Ok(folder))
  }

  /** `str()` of the `KeyError` from reading a descriptor's missing `id`. */
  const MissingIdMessage := "'id'"

  /** The adapter calls for one file: a direct Drive copy when the source is Google
      and the descriptor has an id; otherwise a download from the source service by
      id, then an upload into the landing zone. A descriptor without an id fails on
      the download's argument, so a Google source never reaches the download. The
      store plays no part. */
  function FileCall(env: Env, info: FileInfo, landing: string, source: DriveType): (r: AdapterCall<string>)
    ensures source == GOOGLE_DRIVE && info.id.Some? ==>
      r == GoogleDrive.CopyFileDirect(env.google, info.id.value, landing, None, true)
    ensures info.id.None? ==> r == AdapterCall([], Err(MissingIdMessage))
  {
    if info.id.None? then AdapterCall([], Err(MissingIdMessage))
    else if source == GOOGLE_DRIVE then
      GoogleDrive.CopyFileDirect(env.google, info.id.value, landing, None, true)
    else
      var download :=
        if source == DROPBOX then Dropbox.DownloadFile(info.id.value, true)
        else OneDrive.DownloadFile(info.id.value, true);
      match download.result
      case Err(e) => AdapterCall(download.callbacks, Err(e))
      case Ok(content) =>
        var upload := GoogleDrive.UploadFile(env.google, info.name, content, landing, true);
        AdapterCall(download.callbacks + upload.callbacks, upload.result)
  }

  // ---- One file ----

  /** The transfer row through one file's copy: its name and a zero percentage, then
      each callback's percentage, in order. The counters are untouched. */
  function RowDuringFile(t: Transfer, now: Time, name: string, callbacks: seq<Progress>): (r: Transfer)
    ensures SameCounters(t, r)
    ensures r.status == TRANSFERRING
    decreases |callbacks|
  {
    if |callbacks| == 0 then Stamp(t, TRANSFERRING, [CurrentFileName(name), CurrentFileProgress(0.0)], now)
    else
      var p := callbacks[|callbacks| - 1];
      Stamp(RowDuringFile(t, now, name, callbacks[..|callbacks| - 1]), TRANSFERRING, [CurrentFileProgress(CallbackPercent(p))], now)
  }

  /** The edits one file makes to its file row: in progress, the byte count of each
      callback, then completed with the destination and the descriptor's size (0 when
      it has none), or failed with the exception text. */
  function EditsFor(now: Time, info: FileInfo, call: AdapterCall<string>): seq<FileEdit> {
    [Begin(now)] + seq(|call.callbacks|, k requires 0 <= k < |call.callbacks| => SetBytes(call.callbacks[k].transferred))
    + [match call.result
       case Ok(dest) => Complete(dest, info.size.GetOr(0), now)
       case Err(e) => Fail(e)]
  }

  /** Edits applied to one row, in order. */
  function ApplyEdits(f: FileTransfer, es: seq<FileEdit>): (r: FileTransfer)
    ensures r.transferId == f.transferId && r.fileName == f.fileName
    decreases |es|
  {
    if |es| == 0 then f else ApplyEdit(ApplyEdits(f, es[..|es| - 1]), es[|es| - 1])
  }

  /** Byte counts alone change only the byte count. */
  lemma {:induction false} BytesOnly(f: FileTransfer, es: seq<FileEdit>)
    requires forall k :: 0 <= k < |es| ==> es[k].SetBytes?
    ensures ApplyEdits(f, es).(bytesTransferred := f.bytesTransferred) == f
    decreases |es|
  {
    if |es| > 0 {
      BytesOnly(f, es[..|es| - 1]);
    }
  }

  /** A file row after its file: started now, then completed with the destination
      and the descriptor's size, or failed with the message, as the copy went. */
  lemma {:induction false} FileRowOutcome(f: FileTransfer, now: Time, info: FileInfo, call: AdapterCall<string>)
    ensures var r := ApplyEdits(f, EditsFor(now, info, call));
      && r.startedAt == Some(now)
      && r.sourcePath == f.sourcePath && r.fileSize == f.fileSize
      && (r.status == Completed <==> call.result.Ok?)
      && (call.result.Ok? ==>
            r.destinationPath == Some(call.result.value) && r.bytesTransferred == info.size.GetOr(0)
            && r.completedAt == Some(now) && r.errorMessage == f.errorMessage)
      && (call.result.Err? ==>
            r.status == Failed && r.errorMessage == Some(call.result.error)
            && r.destinationPath == f.destinationPath && r.completedAt == f.completedAt)
  {
    var es := EditsFor(now, info, call);
    var mid := es[1..|es| - 1];
    assert es[..|es| - 1] == [Begin(now)] + mid;
    assert ([Begin(now)] + mid)[..1] == [Begin(now)];
    var begun := ApplyEdit(f, Begin(now));
    assert ApplyEdits(f, [Begin(now)]) == begun by {
      assert [Begin(now)][..0] == [];
    }
    ChainEdits(f, [Begin(now)], mid);
    BytesOnly(begun, mid);
  }

  /** Applying `a + b` is applying `b` after `a`. */
  lemma {:induction false} ChainEdits(f: FileTransfer, a: seq<FileEdit>, b: seq<FileEdit>)
    ensures ApplyEdits(f, a + b) == ApplyEdits(ApplyEdits(f, a), b)
    decreases |b|
  {
    if |b| == 0 {
      assert a + b == a;
    } else {
      assert (a + b)[..|a + b| - 1] == a + b[..|b| - 1];
      ChainEdits(f, a, b[..|b| - 1]);
    }
  }

  /** A run of edits to the first row the filter finds; no row matches, no change. */
  function EditFirstAll(files: seq<FileTransfer>, tid: string, name: string, es: seq<FileEdit>): (r: seq<FileTransfer>)
    ensures SameKeys(files, r)
    ensures FirstMatch(files, tid, name).None? ==> r == files
    ensures FirstMatch(files, tid, name).Some? ==>
      var k := FirstMatch(files, tid, name).value;
      r == files[k := ApplyEdits(files[k], es)]
    decreases |es|
  {
    if |es| == 0 then files
    else
      var before := EditFirstAll(files, tid, name, es[..|es| - 1]);
      FirstMatchSameKeys(files, before, tid, name);
      EditFirst(before, tid, name, es[|es| - 1])
  }

  /** The file table's side of one file: only the first row with this transfer id and
      name changes. */
  function FilesAfterFile(files: seq<FileTransfer>, now: Time, tid: string, info: FileInfo, call: AdapterCall<string>): (r: seq<FileTransfer>)
    ensures SameKeys(files, r)
    ensures forall j :: 0 <= j < |files| && FirstMatch(files, tid, info.name) != Some(j) ==> r[j] == files[j]
    ensures FirstMatch(files, tid, info.name).Some? ==>
      var k := FirstMatch(files, tid, info.name).value;
      r[k] == ApplyEdits(files[k], EditsFor(now, info, call))
  {
    EditFirstAll(files, tid, info.name, EditsFor(now, info, call))
  }

  /** The row a file's filter finds first ends completed exactly when the copy
      succeeded, with the destination id, or failed with the message. */
  lemma SettlesFirstRow(files: seq<FileTransfer>, now: Time, tid: string, info: FileInfo, call: AdapterCall<string>)
    ensures FirstMatch(files, tid, info.name).Some? ==>
      var k, r := FirstMatch(files, tid, info.name).value, FilesAfterFile(files, now, tid, info, call);
      && (r[k].status == Completed <==> call.result.Ok?)
      && (call.result.Err? ==> r[k].status == Failed && r[k].errorMessage == Some(call.result.error))
      && (call.result.Ok? ==> r[k].destinationPath == Some(call.result.value) && r[k].bytesTransferred == info.size.GetOr(0))
  {
    if FirstMatch(files, tid, info.name).Some? {
      FileRowOutcome(files[FirstMatch(files, tid, info.name).value], now, info, call);
    }
  }

  /** `transfer_single_file`: the transfer row shows the file and its callbacks'
      percentages; the file row (the first with this transfer id and name) ends
      completed or failed; the adapter's exception is re-raised. */
  function TransferSingleFile(db: Db, env: Env, id: string, info: FileInfo, landing: string, source: DriveType): (r: Step<string>)
    ensures r.out == FileCall(env, info, landing, source).result
    ensures r.db.transfers.Keys == db.transfers.Keys
    ensures id in db.transfers ==> SameCounters(db.transfers[id], r.db.transfers[id]) && r.db.transfers[id].status == TRANSFERRING
    ensures SameKeys(db.files, r.db.files)
    ensures FirstMatch(db.files, id, info.name).Some? ==>
      var k := FirstMatch(db.files, id, info.name).value;
      (r.db.files[k].status == Completed <==> r.out.Ok?)
      && (r.out.Err? ==> r.db.files[k].status == Failed && r.db.files[k].errorMessage == Some(r.out.error))
      && (r.out.Ok? ==> r.db.files[k].destinationPath == Some(r.out.value))
  {
    var call := FileCall(env, info, landing, source);
    var rows := if id in db.transfers then db.transfers[id := RowDuringFile(db.transfers[id], env.now, info.name, call.callbacks)] else db.transfers;
    SettlesFirstRow(db.files, env.now, id, info, call);
    Step(Db(rows, FilesAfterFile(db.files, env.now, id, info, call)), call.result)
  }

  // ---- The per-file loop ----

  /** The adapter calls for every file, in order: what each file's copy does is a
      matter of the services alone, so the loop takes them as given. */
  function FileCalls(env: Env, files: seq<FileInfo>, landing: string, source: DriveType): (r: seq<AdapterCall<string>>)
    ensures |r| == |files|
    ensures forall k :: 0 <= k < |files| ==> r[k] == FileCall(env, files[k], landing, source)
  {
    seq(|files|, k requires 0 <= k < |files| => FileCall(env, files[k], landing, source))
  }

  /** The counters written after a file succeeds. */
  function Tally(done: int, n: int): seq<Update>
    requires n > 0
  {
    [FilesCompleted(done), OverallProgress(OverallPercent(done, n))]
  }

  /** The row after a tally: both counters written, the file count and the start time
      kept. */
  function TallyRow(t: Transfer, done: int, n: int, now: Time): (r: Transfer)
    requires n > 0
    ensures r.filesCompleted == done && r.overallProgress == OverallPercent(done, n)
    ensures r.totalFiles == t.totalFiles && (t.startedAt.Some? ==> r.startedAt == t.startedAt)
  {
    ApplyPair(FilesCompleted(done), OverallProgress(OverallPercent(done, n)));
    Stamp(t, TRANSFERRING, Tally(done, n), now)
  }

  /** The transfer row after one turn of the loop: the file's copy, then, if it
      succeeded, the tally `mark`. */
  function RowAfterFile(t: Transfer, now: Time, info: FileInfo, call: AdapterCall<string>, mark: int, n: int): (r: Transfer)
    requires n > 0
    ensures r.totalFiles == t.totalFiles
    ensures t.startedAt.Some? ==> r.startedAt == t.startedAt
    ensures call.result.Ok? ==> r.filesCompleted == mark && r.overallProgress == OverallPercent(mark, n)
    ensures call.result.Err? ==> r.filesCompleted == t.filesCompleted && r.overallProgress == t.overallProgress
  {
    var during := RowDuringFile(t, now, info.name, call.callbacks);
    if call.result.Ok? then TallyRow(during, mark, n, now) else during
  }

  /** The transfer row through the loop as written: after the file at position `i`
      succeeds, `files_completed` becomes `i + 1`. So it ends at one past the
      position of the last success, with that value's share as the overall
      percentage, and is untouched when every call failed. */
  function RowLoopAsWritten(t: Transfer, now: Time, files: seq<FileInfo>, calls: seq<AdapterCall<string>>, i: nat): (r: Transfer)
    requires |calls| == |files| && i <= |files|
    ensures r.totalFiles == t.totalFiles && (t.startedAt.Some? ==> r.startedAt == t.startedAt)
    ensures LastOk(calls, i).Some? ==>
      r.filesCompleted == LastOk(calls, i).value + 1 && r.overallProgress == OverallPercent(r.filesCompleted, |files|)
    ensures LastOk(calls, i).None? ==> r.filesCompleted == t.filesCompleted && r.overallProgress == t.overallProgress
    decreases |files| - i
  {
    if i == |files| then t
    else RowLoopAsWritten(RowAfterFile(t, now, files[i], calls[i], i + 1, |files|), now, files, calls, i + 1)
  }

  /** The transfer row through the loop counting successes, `done` so far:
      `files_completed` ends at the number of files that succeeded, so never above the
      file count, and the overall percentage is that count's share once a file has
      succeeded, and untouched until then. */
  function RowLoop(t: Transfer, now: Time, files: seq<FileInfo>, calls: seq<AdapterCall<string>>, i: nat, done: nat): (r: Transfer)
    requires |calls| == |files| && i <= |files|
    ensures r.totalFiles == t.totalFiles && (t.startedAt.Some? ==> r.startedAt == t.startedAt)
    ensures t.filesCompleted == done ==> r.filesCompleted == done + Successes(calls, i)
    ensures Successes(calls, i) > 0 ==> r.overallProgress == OverallPercent(r.filesCompleted, |files|)
    ensures Successes(calls, i) == 0 ==> r.overallProgress == t.overallProgress
    decreases |files| - i
  {
    if i == |files| then t
    else
      var next := RowAfterFile(t, now, files[i], calls[i], done + 1, |files|);
      var done' := if calls[i].result.Ok? then done + 1 else done;
      assert Successes(calls, i) == done' - done + Successes(calls, i + 1);
      RowLoop(next, now, files, calls, i + 1, done')
  }

  /** The file table through the loop as written: each file settles the first row
      with its transfer id and name. */
  function FilesLoop(table: seq<FileTransfer>, now: Time, tid: string, files: seq<FileInfo>, calls: seq<AdapterCall<string>>, i: nat): (r: seq<FileTransfer>)
    requires |calls| == |files| && i <= |files|
    ensures SameKeys(table, r)
    decreases |files| - i
  {
    if i == |files| then table
    else FilesLoop(FilesAfterFile(table, now, tid, files[i], calls[i]), now, tid, files, calls, i + 1)
  }

  /** The transfer row with `f` applied, when there is one. */
  function MapRow(db: Db, id: string, t: Transfer): map<string, Transfer> {
    if id in db.transfers then db.transfers[id := t] else db.transfers
  }

  /** The loop of `process_transfer` as written. A turn touches the transfer row and
      the file table independently, so the loop is the pair of the two. */
  function TransferLoopAsWritten(db: Db, env: Env, id: string, files: seq<FileInfo>, calls: seq<AdapterCall<string>>): (r: Db)
    requires |calls| == |files|
    ensures r.transfers.Keys == db.transfers.Keys
    ensures id in db.transfers ==>
      var t, u := db.transfers[id], r.transfers[id];
      && u.totalFiles == t.totalFiles && (t.startedAt.Some? ==> u.startedAt == t.startedAt)
      && (LastOk(calls, 0).Some? ==>
            u.filesCompleted == LastOk(calls, 0).value + 1 && u.overallProgress == OverallPercent(u.filesCompleted, |files|))
      && (LastOk(calls, 0).None? ==> u.filesCompleted == t.filesCompleted && u.overallProgress == t.overallProgress)
    ensures forall k :: k != id && k in db.transfers ==> r.transfers[k] == db.transfers[k]
  {
    var row := if id in db.transfers then RowLoopAsWritten(db.transfers[id], env.now, files, calls, 0) else NewTransfer(id, "", GOOGLE_DRIVE, 0);
    Db(MapRow(db, id, row), FilesLoop(db.files, env.now, id, files, calls, 0))
  }

  /** `es` applied to row `j`; a position outside the table edits nothing. */
  function EditAt(table: seq<FileTransfer>, j: int, es: seq<FileEdit>): (r: seq<FileTransfer>)
    ensures SameKeys(table, r)
    ensures forall m :: 0 <= m < |table| && m != j ==> r[m] == table[m]
    ensures 0 <= j < |table| ==> r[j] == ApplyEdits(table[j], es)
  {
    if 0 <= j < |table| then table[j := ApplyEdits(table[j], es)] else table
  }

  /** The file table through the loop when the `k`-th file edits row `rows[k]`, the
      row created for it. */
  function OwnRowsLoop(table: seq<FileTransfer>, now: Time, files: seq<FileInfo>, calls: seq<AdapterCall<string>>, rows: seq<int>, i: nat): (r: seq<FileTransfer>)
    requires |calls| == |files| && |rows| == |files| && i <= |files|
    ensures SameKeys(table, r)
    decreases |files| - i
  {
    if i == |files| then table
    else OwnRowsLoop(EditAt(table, rows[i], EditsFor(now, files[i], calls[i])), now, files, calls, rows, i + 1)
  }

  /** The rows the scan appended for `files`, which end the table. */
  function OwnRows(table: seq<FileTransfer>, files: seq<FileInfo>): (r: seq<int>)
    ensures |r| == |files|
  {
    seq(|files|, k requires 0 <= k < |files| => |table| - |files| + k)
  }

  /** The corrected loop: `files_completed` counts the files that succeeded, and each
      file settles the row the scan created for it. */
  function TransferLoop(db: Db, env: Env, id: string, files: seq<FileInfo>, calls: seq<AdapterCall<string>>): (r: Db)
    requires |calls| == |files|
    ensures r.transfers.Keys == db.transfers.Keys
    ensures id in db.transfers ==> Started(db.transfers[id], r.transfers[id])
  {
    var row := if id in db.transfers then RowLoop(db.transfers[id], env.now, files, calls, 0, 0) else NewTransfer(id, "", GOOGLE_DRIVE, 0);
    Db(MapRow(db, id, row), OwnRowsLoop(db.files, env.now, files, calls, OwnRows(db.files, files), 0))
  }

  /** As written, `files_completed` records the position of the last file that
      succeeded: when the first of two files fails and the second succeeds it reads 2
      and the overall percentage 100, with one file copied. */
  lemma AsWrittenCountsPositions(t: Transfer, now: Time, files: seq<FileInfo>, calls: seq<AdapterCall<string>>)
    requires |files| == 2 && |calls| == 2
    requires calls[0].result.Err? && calls[1].result.Ok?
    ensures Successes(calls, 0) == 1
    ensures RowLoopAsWritten(t, now, files, calls, 0).filesCompleted == 2
    ensures RowLoopAsWritten(t, now, files, calls, 0).overallProgress == 100.0
  {
    var r1 := RowAfterFile(t, now, files[0], calls[0], 1, 2);
    var r2 := RowAfterFile(r1, now, files[1], calls[1], 2, 2);
    assert RowLoopAsWritten(r1, now, files, calls, 1) == r2;
  }

  /** As written, `files_completed` still only grows and stays within the file count. */
  lemma {:induction false} AsWrittenBounded(t: Transfer, now: Time, files: seq<FileInfo>, calls: seq<AdapterCall<string>>, i: nat)
    requires |calls| == |files| && i <= |files|
    requires t.filesCompleted <= i
    ensures t.filesCompleted <= RowLoopAsWritten(t, now, files, calls, i).filesCompleted <= |files|
    decreases |files| - i
  {
    if i < |files| {
      AsWrittenBounded(RowAfterFile(t, now, files[i], calls[i], i + 1, |files|), now, files, calls, i + 1);
    }
  }

  /** Files named differently from a row leave it alone. */
  lemma {:induction false} FilesLoopFrame(table: seq<FileTransfer>, now: Time, tid: string, files: seq<FileInfo>, calls: seq<AdapterCall<string>>, i: nat, j: nat)
    requires |calls| == |files| && i <= |files| && j < |table|
    requires forall m :: i <= m < |files| ==> !Matches(table[j], tid, files[m].name)
    ensures FilesLoop(table, now, tid, files, calls, i)[j] == table[j]
    decreases |files| - i
  {
    if i < |files| {
      var next := FilesAfterFile(table, now, tid, files[i], calls[i]);
      assert next[j] == table[j];
      FilesLoopFrame(next, now, tid, files, calls, i + 1, j);
    }
  }

  /** At a file's own turn its row takes the file's edits, and no later file, being
      named differently, touches it again. */
  lemma SettledAtOwnTurn(table: seq<FileTransfer>, now: Time, tid: string, files: seq<FileInfo>, calls: seq<AdapterCall<string>>, i: nat)
    requires |calls| == |files| && i < |files|
    requires forall b :: i < b < |files| ==> files[i].name != files[b].name
    requires FirstMatch(table, tid, files[i].name).Some?
    ensures var j := FirstMatch(table, tid, files[i].name).value;
      FilesLoop(table, now, tid, files, calls, i)[j] == ApplyEdits(table[j], EditsFor(now, files[i], calls[i]))
  {
    var j := FirstMatch(table, tid, files[i].name).value;
    var next := FilesAfterFile(table, now, tid, files[i], calls[i]);
    assert FilesLoop(table, now, tid, files, calls, i) == FilesLoop(next, now, tid, files, calls, i + 1);
    assert next[j].fileName == files[i].name;
    FilesLoopFrame(next, now, tid, files, calls, i + 1, j);
  }

  /** Another file's turn leaves a file's row, and where its filter finds it, alone. */
  lemma OtherTurnKeepsRow(table: seq<FileTransfer>, now: Time, tid: string, files: seq<FileInfo>, calls: seq<AdapterCall<string>>, i: nat, k: nat)
    requires |calls| == |files| && i < k < |files| && files[i].name != files[k].name
    requires FirstMatch(table, tid, files[k].name).Some?
    ensures var next, j := FilesAfterFile(table, now, tid, files[i], calls[i]), FirstMatch(table, tid, files[k].name).value;
      && FilesLoop(table, now, tid, files, calls, i) == FilesLoop(next, now, tid, files, calls, i + 1)
      && FirstMatch(next, tid, files[k].name) == Some(j)
      && next[j] == table[j]
  {
    var next := FilesAfterFile(table, now, tid, files[i], calls[i]);
    FirstMatchSameKeys(table, next, tid, files[k].name);
  }

  /** As written, with distinct names each file's row (the first its filter finds)
      ends as its own edits left it: one file's failure touches no other file's row. */
  lemma {:induction false} EachFileSettled(table: seq<FileTransfer>, now: Time, tid: string, files: seq<FileInfo>, calls: seq<AdapterCall<string>>, i: nat, k: nat)
    requires |calls| == |files| && i <= k < |files|
    requires forall a, b :: i <= a < b < |files| ==> files[a].name != files[b].name
    requires FirstMatch(table, tid, files[k].name).Some?
    ensures var j := FirstMatch(table, tid, files[k].name).value;
      FilesLoop(table, now, tid, files, calls, i)[j] == ApplyEdits(table[j], EditsFor(now, files[k], calls[k]))
    decreases |files| - i
  {
    if i == k {
      SettledAtOwnTurn(table, now, tid, files, calls, i);
    } else {
      var next := FilesAfterFile(table, now, tid, files[i], calls[i]);
      var j := FirstMatch(table, tid, files[k].name).value;
      OtherTurnKeepsRow(table, now, tid, files, calls, i, k);
      EachFileSettled(next, now, tid, files, calls, i + 1, k);
      assert FilesLoop(next, now, tid, files, calls, i + 1)[j] == ApplyEdits(table[j], EditsFor(now, files[k], calls[k]));
    }
  }

  /** As written, two files of one name both settle the first row of that name: the
      second file's row stays pending, and the first ends as the second copy went. */
  lemma DuplicateNamesMisfiled(now: Time, id: string, files: seq<FileInfo>, calls: seq<AdapterCall<string>>)
    requires |files| == 2 && |calls| == 2 && files[0].name == files[1].name
    ensures var table := PendingRecords(id, files);
      var r := FilesLoop(table, now, id, files, calls, 0);
      && r[1] == table[1] && r[1].status == Pending
      && (r[0].status == Completed <==> calls[1].result.Ok?)
  {
    var table := PendingRecords(id, files);
    assert Matches(table[0], id, files[0].name);
    var next := FilesAfterFile(table, now, id, files[0], calls[0]);
    FirstMatchSameKeys(table, next, id, files[1].name);
    var last := FilesAfterFile(next, now, id, files[1], calls[1]);
    assert FilesLoop(next, now, id, files, calls, 1) == last;
    FileRowOutcome(next[0], now, files[1], calls[1]);
  }

  /** Rows no later file is given leave the corrected loop as they entered. */
  lemma {:induction false} OwnRowsFrame(table: seq<FileTransfer>, now: Time, files: seq<FileInfo>, calls: seq<AdapterCall<string>>, rows: seq<int>, i: nat, j: int)
    requires |calls| == |files| && |rows| == |files| && i <= |files| && 0 <= j < |table|
    requires forall m :: i <= m < |files| ==> rows[m] != j
    ensures OwnRowsLoop(table, now, files, calls, rows, i)[j] == table[j]
    decreases |files| - i
  {
    if i < |files| {
      OwnRowsFrame(EditAt(table, rows[i], EditsFor(now, files[i], calls[i])), now, files, calls, rows, i + 1, j);
    }
  }

  /** In the corrected loop, with distinct rows, each file's row ends as its own
      edits left it. */
  lemma {:induction false} OwnRowSettled(table: seq<FileTransfer>, now: Time, files: seq<FileInfo>, calls: seq<AdapterCall<string>>, rows: seq<int>, i: nat, k: nat)
    requires |calls| == |files| && |rows| == |files| && i <= k < |files| && 0 <= rows[k] < |table|
    requires forall a, b :: i <= a < b < |files| ==> rows[a] != rows[b]
    ensures OwnRowsLoop(table, now, files, calls, rows, i)[rows[k]] == ApplyEdits(table[rows[k]], EditsFor(now, files[k], calls[k]))
    decreases |files| - i
  {
    var next := EditAt(table, rows[i], EditsFor(now, files[i], calls[i]));
    if i == k {
      OwnRowsFrame(next, now, files, calls, rows, i + 1, rows[k]);
    } else {
      OwnRowSettled(next, now, files, calls, rows, i + 1, k);
    }
  }

  /** The corrected loop, whatever the files are called, leaves `files_completed` at
      the number of copies that succeeded, and each file's row, the one the scan
      appended for it, completed exactly when its copy succeeded. */
  lemma LoopSettlesEveryFile(db: Db, env: Env, id: string, files: seq<FileInfo>, calls: seq<AdapterCall<string>>)
    requires |calls| == |files| && id in db.transfers && db.transfers[id].filesCompleted == 0
    requires |files| <= |db.files|
    ensures var r := TransferLoop(db, env, id, files, calls);
      && r.transfers[id].filesCompleted == Successes(calls, 0) <= |files|
      && (Successes(calls, 0) > 0 ==> r.transfers[id].overallProgress == OverallPercent(Successes(calls, 0), |files|))
      && forall k :: 0 <= k < |files| ==>
           var j := |db.files| - |files| + k;
           && r.files[j] == ApplyEdits(db.files[j], EditsFor(env.now, files[k], calls[k]))
           && (r.files[j].status == Completed <==> calls[k].result.Ok?)
  {
    LoopCounts(db, env, id, files, calls);
    LoopRows(db, env, id, files, calls);
  }

  lemma LoopCounts(db: Db, env: Env, id: string, files: seq<FileInfo>, calls: seq<AdapterCall<string>>)
    requires |calls| == |files| && id in db.transfers && db.transfers[id].filesCompleted == 0
    ensures var r := TransferLoop(db, env, id, files, calls);
      && r.transfers[id].filesCompleted == Successes(calls, 0) <= |files|
      && (Successes(calls, 0) > 0 ==> r.transfers[id].overallProgress == OverallPercent(Successes(calls, 0), |files|))
  {
    LoopParts(db, env, id, files, calls);
  }

  lemma LoopRows(db: Db, env: Env, id: string, files: seq<FileInfo>, calls: seq<AdapterCall<string>>)
    requires |calls| == |files| && id in db.transfers && |files| <= |db.files|
    ensures var r := TransferLoop(db, env, id, files, calls);
      forall k :: 0 <= k < |files| ==>
        var j := |db.files| - |files| + k;
        && r.files[j] == ApplyEdits(db.files[j], EditsFor(env.now, files[k], calls[k]))
        && (r.files[j].status == Completed <==> calls[k].result.Ok?)
  {
    var rf := TransferLoop(db, env, id, files, calls).files;
    LoopParts(db, env, id, files, calls);
    forall k | 0 <= k < |files|
      ensures var j := |db.files| - |files| + k;
        && rf[j] == ApplyEdits(db.files[j], EditsFor(env.now, files[k], calls[k]))
        && (rf[j].status == Completed <==> calls[k].result.Ok?)
    {
      OwnRowOfFile(db.files, env.now, files, calls, k);
      FileRowOutcome(db.files[|db.files| - |files| + k], env.now, files[k], calls[k]);
    }
  }

  /** The corrected loop is its row loop and its file loop side by side. */
  lemma LoopParts(db: Db, env: Env, id: string, files: seq<FileInfo>, calls: seq<AdapterCall<string>>)
    requires |calls| == |files| && id in db.transfers
    ensures TransferLoop(db, env, id, files, calls).transfers[id] == RowLoop(db.transfers[id], env.now, files, calls, 0, 0)
    ensures TransferLoop(db, env, id, files, calls).files == OwnRowsLoop(db.files, env.now, files, calls, OwnRows(db.files, files), 0)
  {
  }

  /** The corrected loop's row for the `k`-th file is the one appended for it. */
  lemma OwnRowOfFile(table: seq<FileTransfer>, now: Time, files: seq<FileInfo>, calls: seq<AdapterCall<string>>, k: nat)
    requires |calls| == |files| <= |table| && k < |files|
    ensures var j := |table| - |files| + k;
      OwnRowsLoop(table, now, files, calls, OwnRows(table, files), 0)[j] == ApplyEdits(table[j], EditsFor(now, files[k], calls[k]))
  {
    var rows := OwnRows(table, files);
    assert forall a :: 0 <= a < |files| ==> rows[a] == |table| - |files| + a;
    OwnRowSettled(table, now, files, calls, rows, 0, k);
  }

  /** After the scan every discovered file has a row its filter finds. */
  lemma ScannedRowsExist(table: seq<FileTransfer>, id: string, files: seq<FileInfo>)
    ensures forall k :: 0 <= k < |files| ==> FirstMatch(table + PendingRecords(id, files), id, files[k].name).Some?
    ensures forall k :: 0 <= k < |files| ==>
      (table + PendingRecords(id, files))[|table| + k] == NewFileRecord(id, files[k])
  {
    forall k | 0 <= k < |files|
      ensures FirstMatch(table + PendingRecords(id, files), id, files[k].name).Some?
    {
      var all := table + PendingRecords(id, files);
      assert Matches(all[|table| + k], id, files[k].name);
    }
  }

  // ---- The NotebookLM stage ----

  /** The notebook's display name. */
  function NotebookTitle(id: string): string {
    "FTransport_" + id
  }

  /** The transfer row through the NotebookLM stage when the listing succeeds:
      UPLOADING, then COMPLETED with the notebook id, stamped now. */
  function PublishedRow(t: Transfer, notebook: string, now: Time): (r: Transfer)
    ensures r.status == COMPLETED && r.notebookId == Some(notebook) && r.completedAt == Some(now)
    ensures Started(t, r)
  {
    ApplyPair(NotebookId(notebook), CompletedAt(now));
    Stamp(Stamp(t, UPLOADING, [], now), COMPLETED, [NotebookId(notebook), CompletedAt(now)], now)
  }

  /** `upload_to_notebooklm`: UPLOADING, a notebook named after the transfer, the
      landing zone's listing (whose failure is raised), every file offered to the
      notebook (the answers only feed a log line), then COMPLETED with the notebook id. */
  function UploadToNotebookLM(db: Db, env: Env, id: string, landing: string): (r: Step<string>)
    ensures r.db.files == db.files && r.db.transfers.Keys == db.transfers.Keys
    ensures r.out.Err? <==> GoogleDrive.ListFilesInFolder(env.google, landing).Err?
    ensures r.out.Err? ==> r.out.error == GoogleDrive.ListFilesInFolder(env.google, landing).error
    ensures r.out.Ok? ==> r.out.value == NotebookLM.CreateNotebook(env.notebook, NotebookTitle(id))
    ensures id in db.transfers && r.out.Ok? ==> r.db.transfers[id] == PublishedRow(db.transfers[id], r.out.value, env.now)
    ensures id in db.transfers && r.out.Err? ==> r.db.transfers[id] == Stamp(db.transfers[id], UPLOADING, [], env.now)
  {
    var db1 := UpdateProgress(db, id, UPLOADING, [], env.now);
    var notebook := NotebookLM.CreateNotebook(env.notebook, NotebookTitle(id));
    match GoogleDrive.ListFilesInFolder(env.google, landing)
    case Err(e) => Step(db1, Err(e))
    case Ok(_) =>
      Step(UpdateProgress(db1, id, COMPLETED, [NotebookId(notebook), CompletedAt(env.now)], env.now), Ok(notebook))
  }

  // ---- process_transfer ----

  const NoFilesMessage := "No files found in source folder"

  /** A run's effect on the store and how it ended: `Ok(None)` when the source had
      no files, `Ok(Some(notebook))` on completion, `Err(message)` when it raised. */
  datatype Run = Run(db: Db, outcome: Result<Option<string>>)

  /** The outer handler: FAILED with the exception text, which is re-raised. */
  function FailRun(db: Db, env: Env, id: string, e: string): (r: Run)
    ensures r.outcome == Err(e) && r.db.files == db.files && r.db.transfers.Keys == db.transfers.Keys
    ensures id in db.transfers ==> Started(db.transfers[id], r.db.transfers[id])
    ensures id in db.transfers ==>
      var t := r.db.transfers[id];
      t.status == FAILED && t.errorMessage == Some(e) && t.completedAt == Some(env.now)
    ensures id !in db.transfers ==> r.db == db
  {
    Run(UpdateProgress(db, id, FAILED, [ErrorMessage(e)], env.now), Err(e))
  }

  /** The part of `process_transfer` after a non-empty scan: the landing zone, the
      copies, the NotebookLM stage; the first exception marks the run FAILED. */
  function CopyAndPublish(db: Db, env: Env, id: string, files: seq<FileInfo>, drive: DriveType, build: Build): (r: Run)
    ensures r.db.transfers.Keys == db.transfers.Keys
    ensures id in db.transfers ==>
      var t, u := db.transfers[id], r.db.transfers[id];
      && Started(t, u) && u.completedAt == Some(env.now)
      && (r.outcome.Err? ==> u.status == FAILED && u.errorMessage == Some(r.outcome.error))
      && (r.outcome.Ok? ==> u.status == COMPLETED && r.outcome.value.Some? && u.notebookId == r.outcome.value)
    ensures id !in db.transfers ==> r.outcome.Err? || r.outcome.value.Some?
  {
    var zone := CreateLandingZone(db, env, id);
    match zone.out
    case Err(e) => FailRun(zone.db, env, id, e)
    case Ok(landing) =>
      var calls := FileCalls(env, files, landing, drive);
      var copied := if build.AsWritten? then TransferLoopAsWritten(zone.db, env, id, files, calls)
                    else TransferLoop(zone.db, env, id, files, calls);
      var up := UploadToNotebookLM(copied, env, id, landing);
      match up.out
      case Err(e) => FailRun(up.db, env, id, e)
      case Ok(notebook) => Run(up.db, Ok(Some(notebook)))
  }

  /** The part of `process_transfer` after a successful scan: an empty source ends the
      run COMPLETED with a note and no notebook; otherwise copy and publish. */
  function AfterScan(db: Db, env: Env, id: string, files: seq<FileInfo>, drive: DriveType, build: Build): (r: Run)
    ensures r.db.transfers.Keys == db.transfers.Keys
    ensures id in db.transfers ==>
      var t, u := db.transfers[id], r.db.transfers[id];
      && Started(t, u) && u.completedAt == Some(env.now)
      && (r.outcome.Err? ==> u.status == FAILED && u.errorMessage == Some(r.outcome.error))
      && (r.outcome == Ok(None) ==> u.status == COMPLETED && u.errorMessage == Some(NoFilesMessage))
      && (r.outcome.Ok? && r.outcome.value.Some? ==> u.status == COMPLETED && u.notebookId == r.outcome.value)
    ensures id !in db.transfers ==> r.outcome.Err? || r.outcome.value.Some? || r.db == db
    ensures r.outcome == Ok(None) <==> |files| == 0
  {
    if |files| == 0 then
      Run(UpdateProgress(db, id, COMPLETED, [ErrorMessage(NoFilesMessage)], env.now), Ok(None))
    else CopyAndPublish(db, env, id, files, drive, build)
  }

  /** `process_transfer`: detect the drive, scan it, stop early on an empty source,
      then copy and publish. Whatever happens, a known transfer ends terminal, stamped
      now, and started (now, unless it had started before). */
  function ProcessTransfer(db: Db, env: Env, id: string, url: string, build: Build): (r: Run)
    ensures id !in db.transfers ==> r.db == db && r.outcome.Err?
    ensures r.db.transfers.Keys == db.transfers.Keys
    ensures id in db.transfers ==>
      var t, u := db.transfers[id], r.db.transfers[id];
      && (r.outcome.Err? ==> u.status == FAILED && u.errorMessage == Some(r.outcome.error))
      && (r.outcome == Ok(None) ==> u.status == COMPLETED && u.errorMessage == Some(NoFilesMessage))
      && (r.outcome.Ok? && r.outcome.value.Some? ==> u.status == COMPLETED && u.notebookId == r.outcome.value)
      && u.completedAt == Some(env.now)
      && u.startedAt == (if t.startedAt.Some? then t.startedAt else Some(env.now))
  {
    match DriveDetector.DetectDriveType(url, env.unicode)
    case Err(e) => FailRun(db, env, id, e)
    case Ok(drive) =>
      var scan := ScanSourceDrive(db, env, id, url, drive, build);
      match scan.out
      case Err(e) => FailRun(scan.db, env, id, e)
      case Ok(files) => AfterScan(scan.db, env, id, files, drive, build)
  }

  /** A Google folder the API refuses outright: as written the run ends COMPLETED as
      an empty source, with no notebook; corrected, it ends FAILED with the status's
      message. */
  lemma RefusedFolderRun(db: Db, env: Env, id: string, url: string, e: GoogleDrive.HttpError)
    requires id in db.transfers && DriveDetector.DetectDriveType(url, env.unicode) == Ok(GOOGLE_DRIVE) && env.google.client
    requires env.google.api.tree(GoogleDrive.ExtractFolderId(url)) == GoogleDrive.Listing([], GoogleDrive.Refused(e))
    ensures var r := ProcessTransfer(db, env, id, url, AsWritten);
      r.outcome == Ok(None) && r.db.transfers[id].status == COMPLETED && r.db.transfers[id].errorMessage == Some(NoFilesMessage)
    ensures var r := ProcessTransfer(db, env, id, url, Corrected);
      && r.outcome == Err(GoogleDrive.ListErrorMessage(GoogleDrive.ExtractFolderId(url), e))
      && r.db.transfers[id].status == FAILED
  {
    GoogleDrive.RefusedFolderLooksEmpty(env.google, url, e);
    var m := GoogleDrive.ListErrorMessage(GoogleDrive.ExtractFolderId(url), e);
    assert SourceListing(env, GOOGLE_DRIVE, url, AsWritten) == Ok([]);
    assert SourceListing(env, GOOGLE_DRIVE, url, Corrected) == Err(m);
    assert ScanSourceDrive(db, env, id, url, GOOGLE_DRIVE, AsWritten).out == Ok([]);
    assert ScanSourceDrive(db, env, id, url, GOOGLE_DRIVE, Corrected).out == Err(m);
  }
}
