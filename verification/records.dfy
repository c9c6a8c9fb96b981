/** The record store of a transfer: the status and drive enums, the `Transfer` and
    `FileTransfer` rows with their column defaults, and the shared shapes that the
    adapters and the orchestrators exchange (file descriptors, progress callbacks,
    keyword field updates and file-row edits). */
module Records {
  import opened Wrappers

  /** Lifecycle states of a transfer. */
  datatype TransferStatus = PENDING | SCANNING | TRANSFERRING | UPLOADING | COMPLETED | FAILED | CANCELLED

  /** The enum member's `.value`. */
  function StatusValue(s: TransferStatus): string {
    match s
    case PENDING => "pending"
    case SCANNING => "scanning"
    case TRANSFERRING => "transferring"
    case UPLOADING => "uploading"
    case COMPLETED => "completed"
    case FAILED => "failed"
    case CANCELLED => "cancelled"
  }

  /** Lookup by value, `TransferStatus(v)`; `None` where Python raises. */
  function StatusFromValue(v: string): (r: Option<TransferStatus>)
    ensures r.Some? ==> StatusValue(r.value) == v
  {
    if v == "pending" then Some(PENDING)
    else if v == "scanning" then Some(SCANNING)
    else if v == "transferring" then Some(TRANSFERRING)
    else if v == "uploading" then Some(UPLOADING)
    else if v == "completed" then Some(COMPLETED)
    else if v == "failed" then Some(FAILED)
    else if v == "cancelled" then Some(CANCELLED)
    else None
  }

  /** The members in declaration order. */
  const AllStatuses: seq<TransferStatus> :=
    [PENDING, SCANNING, TRANSFERRING, UPLOADING, COMPLETED, FAILED, CANCELLED]

  /** Exactly seven statuses, with pairwise distinct values, each recovered from its value. */
  lemma StatusEnumeration()
    ensures |AllStatuses| == 7
    ensures forall s: TransferStatus :: s in AllStatuses
    ensures forall i, j :: 0 <= i < j < |AllStatuses| ==> StatusValue(AllStatuses[i]) != StatusValue(AllStatuses[j])
    ensures forall s: TransferStatus :: StatusFromValue(StatusValue(s)) == Some(s)
  {
    forall s: TransferStatus ensures s in AllStatuses {
      match s
      case PENDING => assert AllStatuses[0] == s;
      case SCANNING => assert AllStatuses[1] == s;
      case TRANSFERRING => assert AllStatuses[2] == s;
      case UPLOADING => assert AllStatuses[3] == s;
      case COMPLETED => assert AllStatuses[4] == s;
      case FAILED => assert AllStatuses[5] == s;
      case CANCELLED => assert AllStatuses[6] == s;
    }
  }

  /** COMPLETED, FAILED and CANCELLED end a transfer. */
  predicate IsTerminal(s: TransferStatus) {
    s == COMPLETED || s == FAILED || s == CANCELLED
  }

  /** Cloud storage providers a source URL can belong to. */
  datatype DriveType = GOOGLE_DRIVE | ONEDRIVE | DROPBOX

  function DriveTypeValue(d: DriveType): string {
    match d
    case GOOGLE_DRIVE => "google_drive"
    case ONEDRIVE => "onedrive"
    case DROPBOX => "dropbox"
  }

  const AllDriveTypes: seq<DriveType> := [GOOGLE_DRIVE, ONEDRIVE, DROPBOX]

  /** Exactly three drive types with distinct values. */
  lemma DriveTypeEnumeration()
    ensures |AllDriveTypes| == 3
    ensures forall d: DriveType :: d in AllDriveTypes
    ensures forall i, j :: 0 <= i < j < |AllDriveTypes| ==> DriveTypeValue(AllDriveTypes[i]) != DriveTypeValue(AllDriveTypes[j])
  {
    forall d: DriveType ensures d in AllDriveTypes {
      match d
      case GOOGLE_DRIVE => assert AllDriveTypes[0] == d;
      case ONEDRIVE => assert AllDriveTypes[1] == d;
      case DROPBOX => assert AllDriveTypes[2] == d;
    }
  }

  /** An opaque timestamp; the model only copies and compares them. */
  type Time = nat

  /** One row of the `transfers` table. Progress percentages are exact rationals. */
  datatype Transfer = Transfer(
    id: string,
    sourceUrl: string,
    driveType: DriveType,
    status: TransferStatus,
    totalFiles: int,
    filesCompleted: int,
    currentFileName: Option<string>,
    currentFileProgress: real,
    overallProgress: real,
    landingZoneFolderId: Option<string>,
    notebookId: Option<string>,
    errorMessage: Option<string>,
    createdAt: Time,
    startedAt: Option<Time>,
    completedAt: Option<Time>,
    userId: string)

  const DefaultUser := "default_user"

  /** A new row as the create endpoint writes it: the given identity, source, drive
      type and creation time, every other column at its declared default. */
  function NewTransfer(id: string, url: string, drive: DriveType, now: Time): (t: Transfer)
    ensures t.id == id && t.sourceUrl == url && t.driveType == drive && t.createdAt == now
    ensures t.status == PENDING
    ensures t.totalFiles == 0 && t.filesCompleted == 0
    ensures t.currentFileProgress == 0.0 && t.overallProgress == 0.0
    ensures t.currentFileName.None?
    ensures t.landingZoneFolderId.None? && t.notebookId.None? && t.errorMessage.None?
    ensures t.startedAt.None? && t.completedAt.None?
    ensures t.userId == DefaultUser
  {
    Transfer(id, url, drive, PENDING, 0, 0, None, 0.0, 0.0, None, None, None, now, None, None, DefaultUser)
  }

  /** The string states of a `FileTransfer` row. */
  datatype FileStatus = Pending | InProgress | Completed | Failed

  function FileStatusValue(s: FileStatus): string {
    match s
    case Pending => "pending"
    case InProgress => "in_progress"
    case Completed => "completed"
    case Failed => "failed"
  }

  /** One row of the `file_transfers` table (its integer key is the position in the table). */
  datatype FileTransfer = FileTransfer(
    transferId: string,
    fileName: string,
    fileSize: Option<int>,
    fileType: Option<string>,
    sourcePath: string,
    destinationPath: Option<string>,
    status: FileStatus,
    bytesTransferred: int,
    errorMessage: Option<string>,
    startedAt: Option<Time>,
    completedAt: Option<Time>)

  /** A file descriptor dict as the adapters return it. `id`, `size`, `type` and
      `parent_id` may be missing; `name` and `path` are always read with `[]`. */
  datatype FileInfo = FileInfo(
    id: Option<string>,
    name: string,
    path: string,
    size: Option<int>,
    mimeType: Option<string>,
    modified: Option<string>,
    parentId: Option<string>)

  /** The row the scan writes for a discovered file. */
  function NewFileRecord(transferId: string, info: FileInfo): (f: FileTransfer)
    ensures f.transferId == transferId && f.fileName == info.name && f.sourcePath == info.path
    ensures f.fileSize == info.size && f.fileType == info.mimeType
    ensures f.status == Pending && f.bytesTransferred == 0
    ensures f.destinationPath.None? && f.errorMessage.None? && f.startedAt.None? && f.completedAt.None?
  {
    FileTransfer(transferId, info.name, info.size, info.mimeType, info.path, None, Pending, 0, None, None, None)
  }

  /** One pending row per discovered file, in discovery order. */
  function PendingRecords(transferId: string, infos: seq<FileInfo>): (r: seq<FileTransfer>)
    ensures |r| == |infos|
    ensures forall i :: 0 <= i < |infos| ==> r[i] == NewFileRecord(transferId, infos[i])
  {
    seq(|infos|, i requires 0 <= i < |infos| => NewFileRecord(transferId, infos[i]))
  }

  /** Raw file contents. */
  newtype byte = x: int | 0 <= x < 256
  type Bytes = seq<byte>

  /** The bytes of an ASCII text. */
  function AsciiBytes(s: string): (r: Bytes)
    ensures |r| == |s|
  {
    seq(|s|, i requires 0 <= i < |s| => (s[i] as int % 256) as byte)
  }

  /** One invocation `progress_callback(transferred, total)`. */
  datatype Progress = Progress(transferred: int, total: int)

  /** An adapter call: the progress callbacks it made, then its return value or exception. */
  datatype AdapterCall<T> = AdapterCall(callbacks: seq<Progress>, result: Result<T>)

  /** How many of `calls[i..]` succeed: never more than the calls left, and all of
      them exactly when none failed. */
  function Successes<T>(calls: seq<AdapterCall<T>>, i: nat): (r: nat)
    requires i <= |calls|
    ensures r <= |calls| - i
    ensures r == |calls| - i <==> forall k :: i <= k < |calls| ==> calls[k].result.Ok?
    decreases |calls| - i
  {
    if i == |calls| then 0
    else (if calls[i].result.Ok? then 1 else 0) + Successes(calls, i + 1)
  }

  /** The position of the last successful call at or after `i`, if any: every call
      after it failed, and it is absent exactly when every call from `i` on failed. */
  function LastOk<T>(calls: seq<AdapterCall<T>>, i: nat): (r: Option<nat>)
    requires i <= |calls|
    ensures r.Some? ==> i <= r.value < |calls| && calls[r.value].result.Ok?
    ensures r.Some? ==> forall k :: r.value < k < |calls| ==> calls[k].result.Err?
    ensures r.None? <==> forall k :: i <= k < |calls| ==> calls[k].result.Err?
    decreases |calls| - i
  {
    if i == |calls| then None
    else match LastOk(calls, i + 1)
      case Some(k) => Some(k)
      case None => if calls[i].result.Ok? then Some(i) else None
  }

  /** The per-file percentage a progress callback reports: 0 when the total is not positive. */
  function CallbackPercent(p: Progress): (r: real)
    ensures p.total > 0 && 0 <= p.transferred <= p.total ==> 0.0 <= r <= 100.0
    ensures p.total <= 0 ==> r == 0.0
  {
    if p.total > 0 then p.transferred as real / p.total as real * 100.0 else 0.0
  }

  /** The share of `total` files that `done` represents, as a percentage. */
  function OverallPercent(done: int, total: int): real
    requires total > 0
  {
    done as real / total as real * 100.0
  }

  /** The overall percentage is positive and at most 100 for a count within the
      total, reaches 100 exactly at the total, and grows with the count. */
  lemma OverallPercentRange(done: int, done': int, total: int)
    requires total > 0
    ensures 0 < done <= total ==> 0.0 < OverallPercent(done, total) <= 100.0
    ensures OverallPercent(done, total) == 100.0 <==> done == total
    ensures done <= done' ==> OverallPercent(done, total) <= OverallPercent(done', total)
  {
    var q := total as real;
    var x, x' := OverallPercent(done, total), OverallPercent(done', total);
    assert x * q == done as real * 100.0;
    assert x' * q == done' as real * 100.0;
    assert (x' - x) * q == (done' - done) as real * 100.0;
    assert x == 100.0 <==> done as real * 100.0 == q * 100.0;
  }

  /** A keyword argument of `update_progress(..., **kwargs)`. `UnknownField` names no
      attribute of the row. */
  datatype Update =
    | TotalFiles(n: int)
    | FilesCompleted(n: int)
    | CurrentFileName(name: string)
    | CurrentFileProgress(p: real)
    | OverallProgress(p: real)
    | LandingZoneFolderId(folder: string)
    | NotebookId(notebook: string)
    | ErrorMessage(message: string)
    | CompletedAt(at: Time)
    | UnknownField(key: string)

  /** `setattr` of one keyword argument, skipped when the row has no such attribute. */
  function ApplyUpdate(t: Transfer, u: Update): Transfer {
    match u
    case TotalFiles(n) => t.(totalFiles := n)
    case FilesCompleted(n) => t.(filesCompleted := n)
    case CurrentFileName(name) => t.(currentFileName := Some(name))
    case CurrentFileProgress(p) => t.(currentFileProgress := p)
    case OverallProgress(p) => t.(overallProgress := p)
    case LandingZoneFolderId(folder) => t.(landingZoneFolderId := Some(folder))
    case NotebookId(notebook) => t.(notebookId := Some(notebook))
    case ErrorMessage(message) => t.(errorMessage := Some(message))
    case CompletedAt(at) => t.(completedAt := Some(at))
    case UnknownField(_) => t
  }

  /** All keyword arguments, in order. Identity, status and start time are never
      touched; a column no argument names keeps its value; the last argument wins. */
  function ApplyUpdates(t: Transfer, us: seq<Update>): (r: Transfer)
    ensures r.id == t.id && r.sourceUrl == t.sourceUrl && r.driveType == t.driveType
    ensures r.status == t.status && r.createdAt == t.createdAt && r.startedAt == t.startedAt
    ensures r.userId == t.userId
    ensures (forall k :: 0 <= k < |us| ==> !us[k].TotalFiles?) ==> r.totalFiles == t.totalFiles
    ensures (forall k :: 0 <= k < |us| ==> !us[k].FilesCompleted?) ==> r.filesCompleted == t.filesCompleted
    ensures (forall k :: 0 <= k < |us| ==> !us[k].CurrentFileName?) ==> r.currentFileName == t.currentFileName
    ensures (forall k :: 0 <= k < |us| ==> !us[k].CurrentFileProgress?) ==> r.currentFileProgress == t.currentFileProgress
    ensures (forall k :: 0 <= k < |us| ==> !us[k].OverallProgress?) ==> r.overallProgress == t.overallProgress
    ensures (forall k :: 0 <= k < |us| ==> !us[k].LandingZoneFolderId?) ==> r.landingZoneFolderId == t.landingZoneFolderId
    ensures (forall k :: 0 <= k < |us| ==> !us[k].NotebookId?) ==> r.notebookId == t.notebookId
    ensures (forall k :: 0 <= k < |us| ==> !us[k].ErrorMessage?) ==> r.errorMessage == t.errorMessage
    ensures (forall k :: 0 <= k < |us| ==> !us[k].CompletedAt?) ==> r.completedAt == t.completedAt
    ensures |us| > 0 && us[|us| - 1].FilesCompleted? ==> r.filesCompleted == us[|us| - 1].n
    ensures |us| > 0 && us[|us| - 1].ErrorMessage? ==> r.errorMessage == Some(us[|us| - 1].message)
    ensures |us| > 0 && us[|us| - 1].NotebookId? ==> r.notebookId == Some(us[|us| - 1].notebook)
    ensures |us| > 0 && us[|us| - 1].CompletedAt? ==> r.completedAt == Some(us[|us| - 1].at)
    decreases |us|
  {
    if |us| == 0 then t
    else ApplyUpdate(ApplyUpdates(t, us[..|us| - 1]), us[|us| - 1])
  }

  /** Two keyword arguments are two `setattr`s in order. */
  lemma ApplyPair(a: Update, b: Update)
    ensures forall t :: ApplyUpdates(t, [a, b]) == ApplyUpdate(ApplyUpdate(t, a), b)
  {
    assert [a, b][..1] == [a];
    assert [a][..0] == [];
  }

  /** The record store: transfers by id, and the file table in insertion order. */
  datatype Db = Db(transfers: map<string, Transfer>, files: seq<FileTransfer>)

  /** A change the orchestrator makes to one file row. */
  datatype FileEdit =
    | Begin(at: Time)                                   // status "in_progress", started_at
    | SetBytes(bytes: int)                              // bytes_transferred from a callback
    | Complete(destination: string, bytes: int, at: Time)
    | Fail(message: string)

  function ApplyEdit(f: FileTransfer, e: FileEdit): (r: FileTransfer)
    ensures r.transferId == f.transferId && r.fileName == f.fileName && r.sourcePath == f.sourcePath
    ensures r.fileSize == f.fileSize
  {
    match e
    case Begin(at) => f.(status := InProgress, startedAt := Some(at))
    case SetBytes(b) => f.(bytesTransferred := b)
    case Complete(dest, b, at) => f.(status := Completed, destinationPath := Some(dest), bytesTransferred := b, completedAt := Some(at))
    case Fail(msg) => f.(status := Failed, errorMessage := Some(msg))
  }

  /** The row filter `transfer_id == tid and file_name == name`. */
  predicate Matches(f: FileTransfer, tid: string, name: string) {
    f.transferId == tid && f.fileName == name
  }

  /** `.first()` of the filter: the lowest matching position. */
  function FirstMatch(files: seq<FileTransfer>, tid: string, name: string): (r: Option<nat>)
    ensures r.None? <==> forall k :: 0 <= k < |files| ==> !Matches(files[k], tid, name)
    ensures r.Some? ==> r.value < |files| && Matches(files[r.value], tid, name)
    ensures r.Some? ==> forall k :: 0 <= k < r.value ==> !Matches(files[k], tid, name)
  {
    if |files| == 0 then None
    else if Matches(files[0], tid, name) then Some(0)
    else match FirstMatch(files[1..], tid, name)
      case None => None
      case Some(k) => Some(k + 1)
  }

  /** Two tables with the same (transfer id, file name) at every position. */
  predicate SameKeys(a: seq<FileTransfer>, b: seq<FileTransfer>) {
    |a| == |b| && forall k :: 0 <= k < |a| ==> a[k].transferId == b[k].transferId && a[k].fileName == b[k].fileName
  }

  /** Editing row contents never moves which row a filter finds first. */
  lemma {:induction false} FirstMatchSameKeys(a: seq<FileTransfer>, b: seq<FileTransfer>, tid: string, name: string)
    requires SameKeys(a, b)
    ensures FirstMatch(a, tid, name) == FirstMatch(b, tid, name)
  {
    if |a| > 0 && !Matches(a[0], tid, name) {
      assert SameKeys(a[1..], b[1..]);
      FirstMatchSameKeys(a[1..], b[1..], tid, name);
    }
  }

  /** Apply `e` to the first row matching the filter; no row matches, no change. */
  function EditFirst(files: seq<FileTransfer>, tid: string, name: string, e: FileEdit): (r: seq<FileTransfer>)
    ensures SameKeys(files, r)
    ensures FirstMatch(files, tid, name).None? ==> r == files
    ensures FirstMatch(files, tid, name).Some? ==>
      var k := FirstMatch(files, tid, name).value;
      r == files[k := ApplyEdit(files[k], e)]
  {
    match FirstMatch(files, tid, name)
    case None => files
    case Some(k) => files[k := ApplyEdit(files[k], e)]
  }

  function EditFile(db: Db, tid: string, name: string, e: FileEdit): Db {
    db.(files := EditFirst(db.files, tid, name, e))
  }
}
