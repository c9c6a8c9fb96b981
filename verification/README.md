# FTransport, modelled in Dafny

FTransport copies the files of a shared cloud folder (Google Drive, OneDrive or
Dropbox) into a Google Drive "landing zone" folder, then hands them to a
NotebookLM Enterprise notebook. A REST router creates, inspects and cancels
transfers. A background orchestrator runs the pipeline: detect the drive, scan
it, create the landing zone, copy file by file, then publish. Progress is kept
in two tables, `transfers` and `file_transfers`, and pushed to subscribers over
a websocket.

This project models that core as pure Dafny functions, one module per source
file:

- `Records` (`database.py`): the status enums, the rows with their column
  defaults, keyword-argument updates, and file-row edits through the
  `.first()` filter.
- `DriveDetector` (`services/drive_detector.py`), with `Urls` for the part of
  `urllib.parse.urlparse` it reads.
- `GoogleDrive`, `NotebookLM`, `Dropbox`, `OneDrive` (the service adapters).
- `Worker` (`transfer_worker.py`) and `Workflows` (`workflows.py`): the two
  orchestrators.
- `TransfersRouter` (`routers/transfers.py`).
- `Connections` (the `ConnectionManager` of `main.py`).
- `Config` (`config.py`) and `ConfigValidator` (`config_validator.py`).
- `Wrappers`, `Text` and `Json` are shared helpers.

How the model treats what it cannot see:

- The record store is a value `Db`: transfers by id, and the file table in
  insertion order. Each stage maps a store to a new store and an outcome.
- An exception is `Err(str(e))`.
- The Drive API and the NotebookLM endpoint are records of total functions from
  a request to what the service answers.
- A progress callback is recorded as a `Progress(transferred, total)` value.
- The clock is a parameter: one instant `now` and its `%Y%m%d_%H%M%S`
  rendering, per run.
- Fresh ids, the process environment, parsed YAML documents, the file system
  and directory creation are parameters too.
- Percentages are exact rationals (`real`).
- Python's `str.lower` is modelled on ASCII letters only.
- The Unicode database `urlsplit` consults (NFKC normalisation, and which
  characters `repr` prints as they are) is a parameter `Urls.Unicode`.

The worker pipeline comes in two builds, chosen by `Worker.Build`:

- `AsWritten` is the program as it stands. The Google listing swallows an
  `HttpError` on the requested folder. The loop sets `files_completed` to the
  file's position, and each file settles the first row with its name.
- `Corrected` fixes the three defects listed under "## Findings". The listing
  raises the mapped message when the folder itself is refused. The loop counts
  successes, and each file settles the row the scan appended for it.

The contracts of `Worker.ScanSourceDrive`, `Worker.CopyAndPublish`,
`Worker.AfterScan` and `Worker.ProcessTransfer` hold in both builds. The
members named in "## Findings" show where the builds differ. The Prefect flow
(`Workflows`) is modelled as written only.

## Model

| member | source | states |
|---|---|---|
| Records.StatusFromValue | backend/app/database.py:16-23 | Looking up a value gives back a member whose value it is, or nothing. |
| Records.StatusEnumeration | backend/app/database.py:16-23 | There are exactly seven statuses, their values are pairwise distinct, and lookup by value inverts `.value` for every member. |
| Records.DriveTypeEnumeration | backend/app/database.py:26-29 | There are exactly three drive types, with distinct values. |
| Records.NewTransfer | backend/app/database.py:32-58 | A created row has the given id, URL, drive type and creation time. Status is PENDING, both counters 0, both percentages 0, every optional column empty, and the user `default_user`. |
| Records.NewFileRecord | backend/app/transfer_worker.py:79-88 | A scanned file's row copies the descriptor's name, path, size and type. It is pending with 0 bytes and no destination, error or times. |
| Records.PendingRecords | backend/app/transfer_worker.py:79-88 | The scan writes one pending row per discovered file, in discovery order. |
| Records.Successes | backend/app/transfer_worker.py:292-313 | The number of successful calls from a position on. It is never more than the calls left, and equals them exactly when no call failed. Both orchestrators use it. |
| Records.LastOk | backend/app/transfer_worker.py:292-309 | The position of the last success, after which every call failed. It is absent exactly when all calls failed. Both orchestrators' positional count ends one past it. |
| Records.CallbackPercent | backend/app/transfer_worker.py:146 | A callback's percentage lies in 0..100 when the total is positive and the count within it. A non-positive total reports 0. |
| Records.OverallPercentRange | backend/app/transfer_worker.py:303 | The overall percentage is positive and at most 100 for a count within the file total. It reaches 100 exactly at the total and grows with the count. |
| Records.ApplyUpdates | backend/app/transfer_worker.py:28-31 | `setattr` of each keyword argument, in order. Identity, status and start time are never touched. A column no argument names keeps its value. The last argument for a column wins. |
| Records.ApplyPair | backend/app/transfer_worker.py:29-31 | Two keyword arguments are two `setattr`s, in order. |
| Records.ApplyEdit | backend/app/transfer_worker.py:136-138 | No file-row edit changes the row's transfer id, name, source path or size. |
| Records.FirstMatch | backend/app/transfer_worker.py:131-134 | `.first()` of the (transfer id, file name) filter is the lowest matching position. It is absent exactly when no row matches. |
| Records.FirstMatchSameKeys | backend/app/transfer_worker.py:131-134 | Editing row contents never moves the row that filter finds first. |
| Records.EditFirst | backend/app/transfer_worker.py:131-139 | Only the row the filter finds first is edited. With no match the table is unchanged. |
| Worker.Stamp | backend/app/transfer_worker.py:26-39 | The row takes the new status and the keyword arguments. `started_at` is set once, on the first non-PENDING update. `completed_at` is re-stamped by every terminal update. Nothing else differs from applying the arguments. |
| Worker.UpdateProgress | backend/app/transfer_worker.py:22-39 | Only the row with that id is stamped. An unknown id changes nothing. The file table is untouched. |
| Worker.UpdateTouchesOneRow | backend/app/transfer_worker.py:26-28 | An update leaves every other transfer row as it was. |
| Worker.StartedAtStable | backend/app/transfer_worker.py:33-35 | Once `started_at` is set, it survives any sequence of further updates. |
| Worker.ScanSourceDrive | backend/app/transfer_worker.py:50-94 | In either build, on success the result is the source listing and the row is SCANNING. The row's file total is the listing's length, and one pending row per file is appended. On failure no file row is written. An unknown id raises and changes nothing. |
| Worker.CreateLandingZone | backend/app/transfer_worker.py:96-106 | The result is the folder the Drive adapter created under the run's name. On success it is recorded on the row, with status TRANSFERRING. On failure the store is unchanged. |
| Worker.FileCall | backend/app/transfer_worker.py:166-185 | A Google source with a descriptor id is copied directly. A descriptor without an id fails with `KeyError('id')` before any call. |
| Worker.RowDuringFile | backend/app/transfer_worker.py:120-151 | Through one file's copy the row is TRANSFERRING. The counters, overall percentage and start time do not change. |
| Worker.ApplyEdits | backend/app/transfer_worker.py:128-221 | A file's edits never change which row they belong to. |
| Worker.BytesOnly | backend/app/transfer_worker.py:153-162 | Byte-count callbacks change only `bytes_transferred`. |
| Worker.FileRowOutcome | backend/app/transfer_worker.py:128-221 | After its file, a file row is started now. It is completed exactly when the copy succeeded, with the destination and the descriptor's size (0 when absent). Otherwise it is failed with the exception text. Path and size are kept. |
| Worker.ChainEdits | backend/app/transfer_worker.py:128-221 | Applying `a + b` is applying `b` after `a`. |
| Worker.EditFirstAll | backend/app/transfer_worker.py:131-221 | A run of edits lands on the row the filter first finds, and only there. |
| Worker.FilesAfterFile | backend/app/transfer_worker.py:128-221 | One file changes only the first row matching its transfer id and name. That row takes the file's edits. |
| Worker.SettlesFirstRow | backend/app/transfer_worker.py:187-221 | The matched row is completed exactly when the copy succeeded. It carries the destination id on success and the message on failure. |
| Worker.TransferSingleFile | backend/app/transfer_worker.py:108-225 | The step returns or re-raises what the adapter call did. The transfer row keeps its counters and is TRANSFERRING. The first matching file row is completed iff the call succeeded, or failed with the message. |
| Worker.FileCalls | backend/app/transfer_worker.py:292-299 | One adapter call per file, in order, each the file's own `FileCall`. |
| Worker.TallyRow | backend/app/transfer_worker.py:302-309 | After a tally, `files_completed` is the mark and the overall percentage is its share. The file total and start time are kept. |
| Worker.RowAfterFile | backend/app/transfer_worker.py:292-313 | One turn of the loop. A success writes the mark and its share. A failure leaves both counters as they were. |
| Worker.RowLoopAsWritten | backend/app/transfer_worker.py:292-313 | As written, `files_completed` ends at one past the position of the last success, and the overall percentage at that value's share. Both are untouched when every call failed. The file total and start time are kept. |
| Worker.RowLoop | backend/app/transfer_worker.py:292-313 | With `files_completed` counting successes, it ends at the number of files copied. The overall percentage is that count's share once a file succeeded, and is untouched until then. |
| Worker.FilesLoop | backend/app/transfer_worker.py:292-313 | As written, the loop never adds, drops or re-keys file rows. |
| Worker.TransferLoopAsWritten | backend/app/transfer_worker.py:290-313 | The loop as written keeps the set of transfers and every other transfer row. The run's row ends at one past the last success's position with its share, or untouched when every call failed, and keeps its file total and start time. |
| Worker.TransferLoop | backend/app/transfer_worker.py:290-313 | The corrected loop (successes counted, each file settling its own row) keeps the set of transfers and a set start time. |
| Worker.AsWrittenCountsPositions | backend/app/transfer_worker.py:303-309 | As written, when the first of two files fails and the second succeeds, `files_completed` reads 2 and the percentage 100, with one file copied. |
| Worker.AsWrittenBounded | backend/app/transfer_worker.py:303-309 | As written, `files_completed` still only grows and stays within the file count. |
| Worker.FilesLoopFrame | backend/app/transfer_worker.py:292-313 | A row no later file's filter names is left alone by the rest of the loop. |
| Worker.SettledAtOwnTurn | backend/app/transfer_worker.py:292-313 | At its own turn a file's row takes its edits. No later, differently named file touches it again. |
| Worker.OtherTurnKeepsRow | backend/app/transfer_worker.py:292-313 | Another file's turn leaves a file's row, and where its filter finds it, unchanged. |
| Worker.EachFileSettled | backend/app/transfer_worker.py:292-313 | As written, with distinct names, each file's row ends exactly as its own edits left it. One file's failure touches no other file's row. |
| Worker.LoopSettlesEveryFile | backend/app/transfer_worker.py:292-313 | In the corrected loop, over the rows the scan appended, `files_completed` ends at the number of successes (at most the file count) and the percentage at its share. Each file's own row takes that file's edits and is completed exactly when its copy succeeded, even when names repeat. |
| Worker.ScannedRowsExist | backend/app/transfer_worker.py:79-88 | After the scan, every discovered file has a row its filter finds. |
| Worker.PublishedRow | backend/app/transfer_worker.py:231-254 | After publishing, the row is COMPLETED with the notebook id and the completion time, and its start time is kept. |
| Worker.UploadToNotebookLM | backend/app/transfer_worker.py:227-257 | The stage raises exactly when listing the landing zone fails, with that message, leaving the row UPLOADING. Otherwise it returns the notebook the service created, and the row is the published row. File rows are untouched. |
| Worker.FailRun | backend/app/transfer_worker.py:321-328 | The outer handler marks a known transfer FAILED with the exception text, stamps `completed_at` and keeps a set start time. The exception is re-raised. |
| Worker.CopyAndPublish | backend/app/transfer_worker.py:279-319 | In either build, after a non-empty scan the row ends stamped now. It is FAILED with the raised message, or COMPLETED with the returned notebook id. |
| Worker.AfterScan | backend/app/transfer_worker.py:271-277 | In either build, an empty scan ends the run COMPLETED with "No files found in source folder" and no notebook. That happens exactly when the source has no files. |
| Worker.ProcessTransfer | backend/app/transfer_worker.py:259-328 | In either build, a known transfer ends terminal and stamped now, whatever happens. It is started (now, unless it had started before). It is FAILED with the message the run re-raises, or COMPLETED with the note or the notebook id. An unknown id raises and changes nothing. |
| Worker.ListingsAgree | backend/app/services/google_drive_service.py:59-80 | The two builds list a source alike, except where the Google folder itself was refused with an `HttpError`. A corrected listing that succeeds is the as-written one. |
| Worker.RefusedFolderRun | backend/app/services/google_drive_service.py:59-127 | A Google folder the API refuses outright: as written the run ends COMPLETED with "No files found in source folder"; corrected it ends FAILED with the mapped message. |
| Worker.DuplicateNamesMisfiled | backend/app/transfer_worker.py:131-139 | As written, two files with the same name both settle the first row: it ends completed exactly when the second copy succeeded, and the second row stays pending. |
| Worker.OwnRowsLoop | backend/app/transfer_worker.py:292-313 | The corrected per-file edits never add, drop or re-key file rows. |
| Worker.OwnRowsFrame | backend/app/transfer_worker.py:292-313 | A row no later file owns is left alone by the rest of the corrected loop. |
| Worker.OwnRowSettled | backend/app/transfer_worker.py:292-313 | With distinct owned rows, each file's row ends exactly as its own edits left it. |
| DriveDetector.AnyIn | backend/app/services/drive_detector.py:16 | The in-order scan of a pattern list is true exactly when some pattern occurs in the host. |
| DriveDetector.ClassifyHost | backend/app/services/drive_detector.py:11-21 | Google when a Google pattern occurs; else OneDrive when a OneDrive pattern occurs; else Dropbox when a Dropbox pattern occurs; else nothing. Each direction is proved. |
| DriveDetector.DetectDriveType | backend/app/services/drive_detector.py:6-24 | It succeeds exactly when the lowered URL splits and its host classifies, with that class. A `urlsplit` error is raised as is. An unclassified host raises the "Unable to detect" message quoting the URL as given. |
| DriveDetector.CaseInsensitive | backend/app/services/drive_detector.py:8 | URLs equal up to letter case classify alike. |
| DriveDetector.HostDecides | backend/app/services/drive_detector.py:8-24 | For `scheme://host<rest>`, only the lowered host decides: the network-location checks of `urlsplit` first, then the classification. A provider domain in the path or query does not count. |
| DriveDetector.ClassifiedNonEmpty | backend/app/services/drive_detector.py:11-21 | A recognised host is never empty. |
| DriveDetector.ValidationSpec | backend/app/services/drive_detector.py:27-57 | A URL is valid exactly when it classifies, splits as given, and has a scheme. A valid result carries the drive type and is accessible. An invalid one carries only the reason: the detector's message, the second split's error, or "Invalid URL format". |
| DriveDetector.MissingChar | backend/app/services/drive_detector.py:12-20 | A pattern holding a character the host lacks does not match. |
| DriveDetector.HttpsShape | backend/app/services/drive_detector.py:8-9 | An `https://host<rest>` URL is decided by its lowered host: the `urlsplit` checks, then the classification. |
| DriveDetector.GoogleHost | backend/app/services/drive_detector.py:12-13 | A host starting with `drive.google.com` is Google Drive. |
| DriveDetector.UnknownHost | backend/app/services/drive_detector.py:11-24 | A host lacking `r`, `s`, `b` and `1` matches no pattern. |
| DriveDetector.GoogleExample | backend/app/services/drive_detector.py:12-13 | `https://drive.google.com/drive/folders/XYZ123` is Google Drive. |
| DriveDetector.UnknownExample | backend/app/services/drive_detector.py:23-24 | `https://unknown-cloud.example.com/folder` is refused, quoting the URL. |
| DriveDetector.UnknownPlain | backend/app/services/drive_detector.py:11-24 | An `https` link on a plain host with none of the letters the patterns need is refused, quoting the URL. |
| DriveDetector.BracketedPlain | backend/app/services/drive_detector.py:8 | A plain host name in brackets is refused by `urlsplit` as no IP address, quoting the name, before any classification. |
| DriveDetector.BracketedNameRefused | backend/app/services/drive_detector.py:8 | `https://[drive.google.com]/x` raises "'drive.google.com' does not appear to be an IPv4 or IPv6 address", not a drive type. |
| Urls.Split | backend/app/services/drive_detector.py:8-9 | `urlsplit` (Python 3.12.0) raises exactly when a network-location check refuses, with that check's message. Otherwise it gives the scheme and network location of the cleaned URL. |
| Urls.CheckNetloc | backend/app/services/drive_detector.py:8-9 | Unbalanced brackets raise "Invalid IPv6 URL". Without `[` only the NFKC check can refuse. An ASCII host without brackets passes. |
| Urls.BracketedHostError | backend/app/services/drive_detector.py:8-9 | A bracketed host starting with `v` passes exactly when it is an IPvFuture literal. Any other passes exactly when it is an IPv6 address and not an IPv4 one. |
| Urls.DigitsOnlyInQuad | backend/app/services/drive_detector.py:8-9 | A string `IPv4Address` accepts holds only digits and dots. |
| Urls.BracketedName | backend/app/services/drive_detector.py:8-9 | A printable name in brackets that does not start with `v`, a digit or `.` and holds no `:` is refused as neither IPv4 nor IPv6, quoted as it stands. |
| Urls.ReprPlain | backend/app/services/drive_detector.py:8-9 | `repr` of printable ASCII without quotes or backslashes is the string in single quotes. |
| Urls.NetlocError | backend/app/services/drive_detector.py:8-9 | An ASCII network location passes. A non-ASCII one is refused exactly when its NFKC form (after dropping `@`, `:`, `#`, `?`) changes and holds a delimiter, with a message quoting it. |
| Urls.AsciiNeedsNoDatabase | backend/app/services/drive_detector.py:8-9 | For an ASCII network location the checks give the same answer under any Unicode database. |
| Urls.StripLeading | backend/app/services/drive_detector.py:8 | `urlsplit` first drops leading C0 control characters and spaces. What is left is a suffix of the input that starts with neither. |
| Urls.RemoveUnsafe | backend/app/services/drive_detector.py:8 | Tabs and newlines are removed: none is left, and a URL without them is unchanged. |
| Urls.Netloc | backend/app/services/drive_detector.py:9 | The network location runs from after `//` to the first `/`, `?` or `#`, and holds none of them. |
| Urls.NetlocLower | backend/app/services/drive_detector.py:8-9 | The network location of a lowered URL is the lowered network location. |
| Urls.CleanShape | backend/app/services/drive_detector.py:8 | A URL with a proper scheme and no tab or newline comes through the cleaning unchanged. |
| Text.Lower | backend/app/services/drive_detector.py:8 | `lower()` maps each character on its own and keeps the length. |
| Text.LowerIdempotent | backend/app/services/drive_detector.py:8 | Lowering twice is lowering once. |
| Text.LastSegment | backend/app/services/notebooklm_service.py:65 | `split('/')[-1]` is the suffix after the last `/`, holding no `/`. It is the whole string when there is none. |
| Urls.SplitShape | backend/app/services/drive_detector.py:33-34 | A clean `scheme://host<rest>` has the lowered scheme and exactly `host` as parts. It splits unless a network-location check refuses `host`, which then gives the error. |
| Urls.PartsShape | backend/app/services/drive_detector.py:33-34 | A clean `scheme://host<rest>` has the lowered scheme and exactly `host` as its network location. |
| Urls.PartsLower | backend/app/services/drive_detector.py:8-9 | The parts of a lowered URL are its scheme and its lowered network location. |
| GoogleDrive.IdRun | backend/app/services/google_drive_service.py:46-48 | The captured group is the longest prefix of `[a-zA-Z0-9-_]` characters. |
| GoogleDrive.Search | backend/app/services/google_drive_service.py:52 | `re.search` returns the leftmost position where the pattern matches, and no earlier position matches. |
| GoogleDrive.Capture | backend/app/services/google_drive_service.py:51-54 | A capture is a non-empty id run. It is absent exactly when the pattern matches nowhere. |
| GoogleDrive.ExtractFolderId | backend/app/services/google_drive_service.py:42-57 | The folder id never contains `/` or `?`. |
| GoogleDrive.IdRunOf | backend/app/services/google_drive_service.py:46-48 | An id run followed by a non-id character is captured exactly. |
| GoogleDrive.FolderLinkRoundTrip | backend/app/services/google_drive_service.py:46 | The id of a `.../folders/<id>` link comes back out, whatever query follows. |
| GoogleDrive.IdParameterRoundTrip | backend/app/services/google_drive_service.py:48 | The id of an `...?id=<id>` link comes back out, when the query after it holds no `/`. |
| GoogleDrive.NoEarlyIdParameter | backend/app/services/google_drive_service.py:48 | With no `=` before it, `id=` first matches where the prefix ends. |
| GoogleDrive.CaptureAfter | backend/app/services/google_drive_service.py:51-54 | A literal followed by an id run captures that run, when nothing matches earlier. |
| GoogleDrive.LiteralAt | backend/app/services/google_drive_service.py:51-54 | The literal sits right after the prefix, with the rest after it. |
| GoogleDrive.SearchFinds | backend/app/services/google_drive_service.py:52 | The search stops at the first match. |
| GoogleDrive.NoSlashMarker | backend/app/services/google_drive_service.py:46-47 | The `/folders/` and `/folderview` patterns cannot match a URL whose only `/` are in an `f`-free prefix. |
| GoogleDrive.NoMatchWithout | backend/app/services/google_drive_service.py:51-54 | A pattern holding a character the URL lacks never matches. |
| GoogleDrive.BareIdentity | backend/app/services/google_drive_service.py:56-57 | A bare id (no `/`, `?` or `=`) is its own folder id. |
| GoogleDrive.Describe | backend/app/services/google_drive_service.py:108-117 | A file's descriptor has its id, name, path and type. Its size is 0 when absent, and its parent is the listed folder. |
| GoogleDrive.Flatten | backend/app/services/google_drive_service.py:82-127 | The recursive listing returns only non-folders, each with a parent and a size, under the listed path. An `HttpError` ends a folder's walk quietly; any other exception escapes. |
| GoogleDrive.FlattenPages | backend/app/services/google_drive_service.py:87-121 | The same, page by page. |
| GoogleDrive.FlattenItems | backend/app/services/google_drive_service.py:100-117 | The same, item by item, subfolders expanded in place. |
| GoogleDrive.UnderJoin | backend/app/services/google_drive_service.py:101 | Anything under `path/name` lies under `path`. |
| GoogleDrive.FlatPage | backend/app/services/google_drive_service.py:98-117 | A single page of plain files lists each file once, in order, named by itself, with the folder as parent. |
| GoogleDrive.NestedFile | backend/app/services/google_drive_service.py:103-106 | A file in a subfolder carries the subfolder's id as parent and `sub/name` as path. |
| GoogleDrive.FlattenTree | backend/app/services/google_drive_service.py:82-127 | The walk raises exactly when a request in it raised something other than `HttpError`. Otherwise a descriptor is listed exactly when it is in the tree: a non-folder reached on a received page, with its folder as parent and its joined path. |
| GoogleDrive.FlattenPagesTree | backend/app/services/google_drive_service.py:87-121 | The same, page by page. |
| GoogleDrive.FlattenItemsTree | backend/app/services/google_drive_service.py:100-117 | The same, item by item. |
| GoogleDrive.FlattenTreeAll | backend/app/services/google_drive_service.py:82-127 | The walk from the root lists exactly the files of the tree, unless it raises. |
| GoogleDrive.Lift | backend/app/services/google_drive_service.py:157-159 | An API answer passes through. An `HttpError` becomes "Failed to <what>: <e>". Any other exception is unchanged. |
| GoogleDrive.Reported | backend/app/services/google_drive_service.py:147-152 | One callback per chunk that reported a status, each against the given total. There are none when callbacks are off. |
| GoogleDrive.ListFiles | backend/app/services/google_drive_service.py:59-80 | As written: without a client it raises "not initialized". Otherwise it raises exactly when a non-`HttpError` exception escaped the walk, and else lists exactly the files of the extracted folder's tree. |
| GoogleDrive.RefusedFolderLooksEmpty | backend/app/services/google_drive_service.py:123-125 | As written, a folder the API refuses outright lists as empty. |
| GoogleDrive.ListFilesChecked | backend/app/services/google_drive_service.py:73-80 | A success is what `list_files` returns, and it differs only when the folder's own listing was refused. Such a refusal with a client always raises, with the mapped message unless another exception escaped first. |
| GoogleDrive.RefusedFolderReported | backend/app/services/google_drive_service.py:73-80 | With the mapping reachable, a refusal of the folder raises the message for 404, for 403, or the generic API error. |
| GoogleDrive.FolderParent | backend/app/services/google_drive_service.py:167-177 | The parent is the given one if truthy, else the landing zone if truthy, else none. It is never empty. |
| GoogleDrive.CreateFolderRequest | backend/app/services/google_drive_service.py:161-190 | The request is always a folder of the given name. Its `parents` key is the given parent, else the landing zone, else omitted. |
| GoogleDrive.DownloadFile | backend/app/services/google_drive_service.py:129-159 | Without a client it raises "not initialized" with no callback. A callback fires only when one is given, against a positive size. |
| GoogleDrive.UploadFile | backend/app/services/google_drive_service.py:192-242 | Without a client it raises "not initialized". Every callback reports against the content length. |
| GoogleDrive.CopyName | backend/app/services/google_drive_service.py:264-267 | The copy takes the new name if truthy, else the source's. |
| GoogleDrive.CopySpec | backend/app/services/google_drive_service.py:244-286 | A successful copy requested the source under that name in the destination folder. It called back once with (100, 100) iff a callback was given. A failed copy made no callback. |
| GoogleDrive.ListFilesInFolder | backend/app/services/google_drive_service.py:288-304 | Without a client it raises "not initialized". |
| GoogleDrive.NotInitializedGuards | backend/app/services/google_drive_service.py:61-62 | Without a client, every operation raises the same error before any API call, with no callback. |
| NotebookLM.MockNotebookId | backend/app/services/notebooklm_service.py:75 | The stand-in id is the fixed prefix then the name, with spaces turned into `_` and letters lowered. It holds no space. |
| NotebookLM.NotebookName | backend/app/services/notebooklm_service.py:65 | The id is the last `/`-segment of the body's `name`, or empty when absent. It raises exactly when the body is no dict or `name` is no string. |
| NotebookLM.CreateNotebook | backend/app/services/notebooklm_service.py:41-77 | Any id other than the stand-in came from a 200 response with credentials. |
| NotebookLM.CreateNotebookSpec | backend/app/services/notebooklm_service.py:41-77 | No credentials, a raised call or a non-200 status each give the stand-in id. A 200 body naming the notebook gives the name's last segment. |
| NotebookLM.UploadFile | backend/app/services/notebooklm_service.py:79-116 | It always reports success. The service took the file exactly when credentials exist, the descriptor has an id and MIME type, and the call answered 200 or 201. |
| NotebookLM.GetNotebookStatus | backend/app/services/notebooklm_service.py:118-141 | A 200 body is returned as is. Another status gives `unknown`. A raised call gives `mock_active`. |
| Dropbox.ListFiles | backend/app/services/dropbox_service.py:8-12 | The listing is empty for any URL and never raises. |
| Dropbox.DownloadFile | backend/app/services/dropbox_service.py:14-20 | The content is the constant placeholder, with one (100, 100) callback exactly when a callback is given. |
| OneDrive.ListFiles | backend/app/services/onedrive_service.py:8-12 | The listing is empty for any URL and never raises. |
| OneDrive.DownloadFile | backend/app/services/onedrive_service.py:14-19 | The content is the constant placeholder, with one (100, 100) callback exactly when a callback is given. |
| Connections.Connect | backend/app/main.py:19-21 | The socket becomes the id's entry, replacing any earlier one. Other ids are unchanged. |
| Connections.Disconnect | backend/app/main.py:23-25 | The id's entry is gone. Other ids are unchanged, and an absent id changes nothing. |
| Connections.Send | backend/app/main.py:27-33 | An open socket receives the data. A failed send drops the entry and is swallowed. An absent id does nothing. Other ids are unchanged. |
| Connections.DisconnectIdempotent | backend/app/main.py:23-25 | Disconnecting twice is disconnecting once. |
| Connections.ConnectThenDisconnect | backend/app/main.py:19-25 | A disconnect undoes any connect for the same id. |
| Connections.LatestSocketReceives | backend/app/main.py:19-33 | After a connect, updates for the id reach the newest socket while it is open. |
| Workflows.Touch | backend/app/workflows.py:24-30 | The flow's update sets the status and arguments but never `started_at`. `completed_at` changes only through an argument. |
| Workflows.TouchIsStampWithoutTimes | backend/app/workflows.py:24-30 | The flow's update equals the worker's except for the two time stamps. They differ on a first non-PENDING update. |
| Workflows.UpdateProgress | backend/app/workflows.py:17-30 | Only the row with that id is touched. An unknown id changes nothing. |
| Workflows.ProgressPayload | backend/app/workflows.py:35-45 | The broadcast has exactly the six keys, read off the updated row. `current_file` is null exactly when no current file name is set. |
| Workflows.UpdateAndNotify | backend/app/workflows.py:17-48 | The update is broadcast to the id's open socket with its payload. A missing manager or unknown id sends nothing. Other subscribers are unaffected. |
| Workflows.ScanSourceDrive | backend/app/workflows.py:51-97 | Same listing and rows as the worker's scan. The row's times are left alone. |
| Workflows.ScanAgreesWithWorker | backend/app/workflows.py:51-97 | The flow's scan and the worker's return alike and write the same file rows. The transfer rows differ only in the start time the worker sets. |
| Workflows.CreateLandingZone | backend/app/workflows.py:100-114 | The result is the adapter's folder, recorded on the row with status TRANSFERRING. The times are untouched. |
| Workflows.FileCall | backend/app/workflows.py:148-158 | Download by path, then upload into the landing zone. A failed download is re-raised. A success carries the upload's id and the downloaded length. |
| Workflows.FlowCopiesWithoutId | backend/app/workflows.py:149 | A descriptor without `id` from a placeholder source: the worker fails it, the flow copies it whenever the upload succeeds. |
| Workflows.FileRowOutcome | backend/app/workflows.py:160-196 | A file row goes straight from pending to completed (destination and downloaded length) or failed (message). It is never marked in progress or started. |
| Workflows.RowDuringFile | backend/app/workflows.py:130-146 | Through one file the row shows the file name and the last callback's percentage (0 before any). Counters and times are untouched. |
| Workflows.TransferSingleFile | backend/app/workflows.py:117-198 | The step returns or re-raises the call's outcome. The first matching file row is settled accordingly, and no row when none matches. |
| Workflows.FileCalls | backend/app/workflows.py:259-266 | One call per file, in order. |
| Workflows.RowAfterFile | backend/app/workflows.py:259-280 | After a success at position `i`, `files_completed` is `i + 1` with its share. A failure leaves both counters. |
| Workflows.RowLoop | backend/app/workflows.py:259-280 | The flow's count, as written, is one past the last success's position, with its share. It is untouched when nothing succeeded. |
| Workflows.PositionBoundsCount | backend/app/workflows.py:270-276 | The positional count never undercounts the successes, and overcounts as soon as an earlier file failed. |
| Workflows.FilesLoop | backend/app/workflows.py:259-280 | The loop never adds, drops or re-keys file rows. |
| Workflows.TransferLoop | backend/app/workflows.py:257-280 | After the loop `files_completed` is one past the last success, at most the file count. The row's times and file total are kept. |
| Workflows.PublishedRow | backend/app/workflows.py:207-227 | After publishing, the row is COMPLETED with the notebook id and completion time. Its start time is untouched. |
| Workflows.UploadToNotebookLM | backend/app/workflows.py:201-230 | It raises exactly when listing the landing zone fails. Otherwise it returns the created notebook, with the published row. |
| Workflows.FailFlow | backend/app/workflows.py:288-295 | The handler marks the transfer FAILED with the text, stamps no time, and re-raises. |
| Workflows.CopyAndPublish | backend/app/workflows.py:257-286 | The transfer ends FAILED with the raised message (times untouched), or COMPLETED with the notebook id, stamped now. |
| Workflows.DataTransferWorkflow | backend/app/workflows.py:233-295 | No run sets `started_at`. `completed_at` is set only on success. Every failure outside the per-file step ends FAILED. Success requires a landing zone. |
| Workflows.EmptySourceDiffers | backend/app/workflows.py:244-247 | On an empty source the worker stops COMPLETED with no notebook. The flow still makes a landing zone and returns a notebook. |
| TransfersRouter.CreateTransfer | backend/app/routers/transfers.py:15-49 | An invalid URL is refused with 400 and the validator's reason, before anything is written. A valid one adds a PENDING row with the detected drive type under the fresh id and returns it. |
| TransfersRouter.GetTransfer | backend/app/routers/transfers.py:63-75 | It returns the row exactly when the id exists, and 404 "Transfer not found" otherwise. |
| TransfersRouter.FilesOf | backend/app/routers/transfers.py:92 | Exactly the file rows of that transfer, each from the table, none missed. |
| TransfersRouter.GetTransferFiles | backend/app/routers/transfers.py:78-93 | 404 for an unknown transfer, else its file rows. |
| TransfersRouter.CancelTransfer | backend/app/routers/transfers.py:96-119 | 404 for an unknown id. 400 naming the status of a finished transfer. Otherwise only the status becomes CANCELLED, and no other row or file changes. |
| TransfersRouter.CancelTwice | backend/app/routers/transfers.py:109-113 | A second cancel is refused with "status: cancelled" and changes nothing. |
| TransfersRouter.CreatedCanBeCancelled | backend/app/routers/transfers.py:31-38 | A transfer just created can be cancelled. |
| TransfersRouter.CancelNotHonoured | backend/app/routers/transfers.py:115-116 | The worker's next update overwrites a CANCELLED status: cancellation is not honoured. |
| TransfersRouter.FileDetail | backend/app/routers/transfers.py:137-145 | Each file detail has exactly four keys. `size` is null exactly when the size is unknown. |
| TransfersRouter.Snapshot | backend/app/routers/transfers.py:147-159 | The snapshot has the broadcast's keys plus `file_details` (one per row of the transfer) and `error_message`. |
| TransfersRouter.GetTransferStatus | backend/app/routers/transfers.py:122-159 | 404 for an unknown id, else the snapshot. |
| TransfersRouter.SnapshotSpec | backend/app/routers/transfers.py:122-159 | The snapshot agrees with the websocket broadcast on every shared key and has one detail per file row. `current_file` is null exactly when no file name is set. |
| TransfersRouter.ValidateUrl | backend/app/routers/transfers.py:162-173 | 400 "URL is required" exactly when `url` is missing or falsy. Otherwise it answers the validation of the value. |
| TransfersRouter.ValidateValue | backend/app/routers/transfers.py:165-173 | A non-empty string gets the validator's record. Any other truthy value gets an invalid record without a drive type. |
| TransfersRouter.NoLower | backend/app/services/drive_detector.py:58-64 | A non-string is invalid, not accessible and untyped. Its message quotes the missing `lower` attribute. |
| Config.Lookup | backend/app/config.py:181-187 | A dotted path resolves only through dicts, starting at its first key. |
| Config.SetPath | backend/app/config.py:181-187 | Setting a dotted path creates missing dicts on the way. The value is then at that path, and other top-level keys are kept. |
| Config.PrefixTail | backend/app/config.py:181-187 | Two paths with the same first step: one starts the other exactly when their tails do. |
| Config.SetPathFrame | backend/app/config.py:181-187 | Writing one path leaves every path that neither starts nor extends it unchanged. |
| Config.DeepMerge | backend/app/config.py:191-197 | Keys of both sides are kept. Dict-on-dict keys merge recursively. Other override keys replace. Base-only keys stay. |
| Config.DeepMergeEmpty | backend/app/config.py:191-197 | Merging an empty override changes nothing. |
| Config.DeepMergeIdempotent | backend/app/config.py:191-197 | Merging a document into itself changes nothing, at any depth. |
| Config.DeepMergeOverrideWins | backend/app/config.py:191-197 | A leaf set by the override is what the merge holds at that path. |
| Config.DeepMergeBaseSurvives | backend/app/config.py:191-197 | A base leaf the override does not reach survives the merge. |
| Config.MappingShapes | backend/app/config.py:146-175 | Every variable's path has two steps, or three under `integrations`. |
| Config.DifferentSteps | backend/app/config.py:146-175 | Short paths that differ in a shared step do not prefix each other. |
| Config.MappingsPrefixFree | backend/app/config.py:146-175 | No path of the table starts another, so no variable overwrites another's value. |
| Config.MappingNamesDistinct | backend/app/config.py:146-175 | The variable names are distinct. |
| Config.OverridesSpec | backend/app/config.py:177-188 | In a prefix-free table, each row's path holds its variable's value when set, and nothing otherwise. |
| Config.NoneSetNoOverrides | backend/app/config.py:177-188 | With no variable set, the override dict is empty. |
| Config.EnvOverrides | backend/app/config.py:143-188 | Each set variable's value is at its path, and an unset one leaves its path empty. With none set, the dict is empty. |
| Config.BaseConfig | backend/app/config.py:128-140 | The environment file's top-level sections win whole over the default file's. Only keys of the two files appear. |
| Config.SectionsReplaceWhole | backend/app/config.py:133-139 | A default-only setting is lost when the environment file has the same section, where a deep merge would keep it. |
| Config.Merged | backend/app/config.py:199-200 | Every set variable's value is at its path in the merged document. With none set, the document is the YAML merge. |
| Config.In | backend/app/config.py:203-210 | Python's `in` covers dicts, lists and strings, and raises on anything else. |
| Config.AddMissing | backend/app/config.py:205-210 | Every missing name is added as an empty dict, keeping the existing entries. It raises on a value that cannot take them. |
| Config.EnsureIntegrations | backend/app/config.py:203-210 | `integrations` and its three sections exist afterwards. Other keys and the existing sections' content are kept. A scalar `integrations` raises. |
| Config.EnsureIntegrationsKeeps | backend/app/config.py:203-210 | Ensuring the sections keeps every leaf of the merged document. |
| Config.Assembled | backend/app/config.py:199-210 | The assembled document has the integration sections. It fails only when the merged `integrations` is not a dict. |
| Config.CreateSettings | backend/app/config.py:212-220 | Settings are built from the document exactly when it is accepted, and are the defaults otherwise. |
| Config.SecretKey | backend/app/config.py:235 | The secret is the configured non-empty value, or the development fallback. It is never empty. |
| Config.SecretKeyRow | backend/app/config.py:151 | `SECRET_KEY` sets `security.secret_key`. |
| Config.VariableReachesSettings | backend/app/config.py:177-214 | Every set variable is at its path in settings built from the merged document. |
| Config.SecretFromEnvironment | backend/app/config.py:151-235 | A non-empty `SECRET_KEY` variable is the secret of such settings. |
| ConfigValidator.ValidateString | backend/app/config_validator.py:56-65 | A missing or blank value is one error and a failure when required, and one warning and a pass when optional. A present value passes silently. |
| ConfigValidator.ValidateSecretKey | backend/app/config_validator.py:67-90 | It passes exactly when the key is set, not a known default and at least 32 characters. Otherwise it adds one error: unset, insecure or short, checked in that order. |
| ConfigValidator.FallbackSecretRejected | backend/app/config_validator.py:74-84 | The settings' fallback secret is one of the insecure keys, so an unconfigured secret never passes. |
| ConfigValidator.ValidateFilePath | backend/app/config_validator.py:25-54 | A required path passes exactly when set, present, a file and readable, and otherwise adds one error. An optional path always passes, with a warning only when unset or missing. |
| ConfigValidator.MissingFieldErrors | backend/app/config_validator.py:115-118 | There are no errors exactly when every field is present. Each missing field is named. |
| ConfigValidator.DictErrors | backend/app/config_validator.py:110-122 | A dict key file passes exactly when it holds all eight fields with `type` `service_account`. Otherwise the last error is the type complaint. |
| ConfigValidator.KeyDocErrors | backend/app/config_validator.py:105-129 | The key document passes exactly when it is a dict with every field and the right type. A list or string ends in the `.get` error, and any other value gives only the membership error. |
| ConfigValidator.KeyFileErrors | backend/app/config_validator.py:105-129 | Parsed text is checked. Non-JSON and unreadable files give one error each. |
| ConfigValidator.ValidateServiceAccount | backend/app/config_validator.py:92-139 | It passes exactly when the key path is a readable file whose contents pass and the project id is set. Errors are only appended. |
| ConfigValidator.DirName | backend/app/config_validator.py:152 | The directory is a prefix of the path. It is empty when the path has no `/`. |
| ConfigValidator.LastSlash | backend/app/config_validator.py:152 | This is the last `/`, or none. |
| ConfigValidator.TrimSlashes | backend/app/config_validator.py:152 | It is the prefix without trailing slashes. |
| ConfigValidator.DatabaseDir | backend/app/config_validator.py:146-152 | Only a SQLite URL that is not in memory names a directory, and never an empty one. |
| ConfigValidator.ValidateDatabase | backend/app/config_validator.py:141-160 | It passes exactly when the URL is set and a missing SQLite directory could be created. Otherwise it adds one error. |
| ConfigValidator.ValidateAll | backend/app/config_validator.py:162-197 | Success means no errors, exactly when the database, secret and service-account checks pass. The last warning is the no-integration note exactly when no integration is configured. |

## Left out

- `list_transfers` (`routers/transfers.py:52-60`): offset/limit paging over the database is not modelled.
- Starting the worker with `asyncio.create_task` after a create, and the websocket endpoint loop of `main.py`, are concurrency and are not modelled. A run is modelled as one sequential function of the store.
- Interleaving of a running transfer with router requests is not modelled. Only the next worker update after a cancel is (`TransfersRouter.CancelNotHonoured`).
- `uuid.uuid4()` and `datetime.utcnow()`/`datetime.now()` are parameters (the fresh id, `now`, the stamp text).
- Floating-point rounding of percentages is not modelled: they are exact rationals.
- `print`, logging and Prefect's `@task`/`@flow` machinery have no effect on the model.
- The NotebookLM upload count that only feeds a log line is not modelled.
- YAML parsing and `load_yaml_config` are not modelled: each file is a parsed mapping or absent. A non-mapping YAML document is not modelled.
- The choice of file by `FTRANSPORT_ENV` is outside the model: the environment's document is a parameter.
- Pydantic validation in `Settings(**config)` is the `accepts` parameter. Its `__`-delimited variables and `.env` file are not modelled.
- `os.path.exists`, `os.path.isfile`, `os.access`, `os.makedirs` and reading the key file are parameters of `ConfigValidator`.
- ConfigValidator.ValidateAll: the settings attributes it reads are parameters. In the real settings `google_cloud_project_id` is never assigned, so it is `None` unless a YAML file has that top-level key.
- `validate_config_or_exit` and the rest of `config_validator.py` after line 197 only print and exit; they are not modelled.
- `_initialize_service` of both adapters (credential files, client construction) is reduced to a boolean: a client exists or not, credentials exist or not.
- The NotebookLM access-token refresh is a raised or successful call.
- `Text.Lower` lowers ASCII letters only, where Python lowers all of Unicode.
- `Urls.Split` models only the scheme and network location of `urlsplit`, as in Python 3.12.0: leading C0/space stripping, tab/newline removal, the bracket check, `_check_bracketed_host` and `_checknetloc`. Port validation and the rest of the tuple are not modelled. Later 3.12 security releases added further checks, which are not modelled.
- Urls.IsIPv6Address: an embedded IPv4 tail is checked as an IPv4 address and then stands for two hextets. The values of the hextets are not computed, because only acceptance matters here.
- The NFKC normalisation and `str.isprintable` are parameters (`Urls.Unicode`), not the Unicode database itself.
- Workflows.UpdateProgress: the broadcast that the flow's `update_progress` performs after every write is modelled once, separately, by `Workflows.UpdateAndNotify`. The Prefect `@task` functions are modelled with the store-only update because delivery does not change the store.
- `auth.py`, `health.py`, `schemas.py`, `logging_config.py` and the FastAPI app wiring in `main.py` are not part of this model.
- GoogleDrive.ExtractFolderId: its contract states only that the result has no `/` or `?`. The three pattern cases are stated by `FolderLinkRoundTrip`, `IdParameterRoundTrip` and `BareIdentity` for the URL shapes they cover, not for every URL.
- GoogleDrive.ListFilesInFolder: the contract covers only the no-client case. A listing with a client is the API's answer lifted by `Lift`.
- Workflows.DataTransferWorkflow: the flow's per-file step runs outside Prefect's own retry and state tracking, which are not modelled.
- Workflows.TransferLoop: the flow is modelled as written only. It has the same positional count and the same first-match row lookup as the worker; the corrected worker loop shows the fix.

## Findings

| source | as written | input that shows it | evidently intended | confidence | as-written member | corrected member |
|---|---|---|---|---|---|---|
| backend/app/transfer_worker.py:303-309 | After the file at position `i` succeeds, `files_completed` is set to `i + 1` and the overall percentage to `(i + 1) / n`. That is the position, not the number of files copied. | Two files: the first copy fails, the second succeeds. `files_completed` reads 2 and the progress 100 %, with one file copied. | `files_completed` counts the files that were copied, and the percentage is that count's share. | not executed | Worker.AsWrittenCountsPositions | Worker.LoopSettlesEveryFile |
| backend/app/services/google_drive_service.py:73-80 | `list_files` maps an `HttpError` to "Folder not found", "Permission denied" or "API error". But `_list_files_recursive` (lines 123-125) catches every `HttpError` itself and returns what it has, so the mapping never runs. | A share link to a folder the service account cannot read: the first page request raises `HttpError` 404. The listing is `[]`, so the run ends COMPLETED with "No files found in source folder". | A refused folder raises the mapped message, so the run ends FAILED with it. | not executed | GoogleDrive.RefusedFolderLooksEmpty | Worker.RefusedFolderRun |
| backend/app/transfer_worker.py:131-139 | Each file's row is found by `.filter(transfer_id, file_name).first()`. The scan stores the bare file name, so files with the same name in different subfolders share one filter. | Two files named `report.pdf`, in subfolders `a` and `b`. Both copies settle the first row, which ends with the second copy's outcome. The second row stays `pending` for good. | Each file settles the row the scan created for it. | not executed | Worker.DuplicateNamesMisfiled | Worker.LoopSettlesEveryFile |

Both halves of each row are in the model:

- `Worker.RowLoopAsWritten`, `Worker.FilesLoop` and `Worker.TransferLoopAsWritten` are the loop as written.
- `Worker.RowLoop`, `Worker.OwnRowsLoop` and `Worker.TransferLoop` are the corrected loop: successes are counted, and each file settles its own row.
- `Worker.CopyAndPublish` runs the loop of the build it is given.
- The Prefect flow repeats the positional count and the first-match rows. `Workflows.RowLoop` models it as written, and `Workflows.PositionBoundsCount` shows how far it can overcount.
- `GoogleDrive.ListFiles` is the listing as written. `GoogleDrive.ListFilesChecked` reports a refusal of the requested folder itself. Subfolder refusals are still skipped.
- `Worker.SourceListing` uses the listing of the build it is given.
