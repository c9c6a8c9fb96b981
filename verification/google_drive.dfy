/** The Google Drive adapter: folder-id extraction from a share link, the recursive
    folder listing, and the guarded file operations. The Drive API is a record of
    total functions from a request to what the service answers. */
module GoogleDrive {
  import opened Wrappers
  import opened Text
  import opened Records

  const NotInitialized := "Google Drive service not initialized"
  const FolderMime := "application/vnd.google-apps.folder"

  // ---- Folder id from a URL ----

  /** `[a-zA-Z0-9-_]`. */
  predicate IsIdChar(c: char) {
    'a' <= c <= 'z' || 'A' <= c <= 'Z' || '0' <= c <= '9' || c == '-' || c == '_'
  }

  predicate AllIdChars(s: string) {
    forall k :: 0 <= k < |s| ==> IsIdChar(s[k])
  }

  const FoldersLit := "/folders/"
  const FolderViewLit := "/folderview?id="
  const IdLit := "id="

  /** The regex `lit([a-zA-Z0-9-_]+)` can match at `i`: the literal, then one id character. */
  predicate MatchAt(s: string, lit: string, i: int) {
    OccursAt(s, lit, i) && i + |lit| < |s| && IsIdChar(s[i + |lit|])
  }

  /** The greedy run of id characters that starts `s`. */
  function IdRun(s: string): (r: string)
    ensures r <= s && AllIdChars(r)
    ensures |r| < |s| ==> !IsIdChar(s[|r|])
  {
    if |s| > 0 && IsIdChar(s[0]) then [s[0]] + IdRun(s[1..]) else []
  }

  /** `re.search`: the leftmost match position at or after `from`. */
  function Search(s: string, lit: string, from: nat): (r: Option<nat>)
    ensures r.Some? ==> from <= r.value && MatchAt(s, lit, r.value)
    ensures forall j :: from <= j && (r.None? || j < r.value) ==> !MatchAt(s, lit, j)
    decreases |s| - from
  {
    if from >= |s| then None
    else if MatchAt(s, lit, from) then Some(from)
    else Search(s, lit, from + 1)
  }

  /** `match.group(1)` of the leftmost match, if any. */
  function Capture(s: string, lit: string): (r: Option<string>)
    ensures r.Some? ==> |r.value| > 0 && AllIdChars(r.value)
    ensures r.None? <==> forall j :: !MatchAt(s, lit, j)
  {
    match Search(s, lit, 0)
    case None => None
    case Some(i) => Some(IdRun(s[i + |lit|..]))
  }

  /** `_extract_folder_id_from_url`: the three patterns in order, then the last
      `/`-segment cut at its first `?`. The result never holds a `/` or a `?`. */
  function ExtractFolderId(url: string): (r: string)
    ensures '/' !in r && '?' !in r
  {
    match Capture(url, FoldersLit)
    case Some(id) => id
    case None =>
      match Capture(url, FolderViewLit)
      case Some(id) => id
      case None =>
        match Capture(url, IdLit)
        case Some(id) => id
        case None => FirstSegment(LastSegment(url, '/'), '?')
  }

  /** The id run is exactly `id` when what follows it cannot extend it. */
  lemma IdRunOf(id: string, suffix: string)
    requires AllIdChars(id)
    requires suffix == [] || !IsIdChar(suffix[0])
    ensures IdRun(id + suffix) == id
  {
    var s := id + suffix;
    var r := IdRun(s);
    assert forall k :: 0 <= k < |id| ==> s[k] == id[k];
    assert s[..|id|] == id;
  }

  /** The id of a `.../folders/<id>` link comes back out, whatever query follows it,
      provided no `f` precedes the marker (true of `https://drive.google.com/drive`). */
  lemma FolderLinkRoundTrip(prefix: string, id: string, suffix: string)
    requires 'f' !in prefix
    requires |id| > 0 && AllIdChars(id)
    requires suffix == [] || !IsIdChar(suffix[0])
    ensures ExtractFolderId(prefix + FoldersLit + id + suffix) == id
  {
    var u := prefix + FoldersLit + id + suffix;
    var p := |prefix|;
    forall j | 0 <= j < p ensures !MatchAt(u, FoldersLit, j) {
      assert u[j..j + |FoldersLit|][1] == u[j + 1];
      assert j + 1 < p ==> u[j + 1] == prefix[j + 1];
      assert u[p] == '/';
    }
    CaptureAfter(prefix, FoldersLit, id, suffix);
  }

  /** The id of an `...open?id=<id>` link comes back out when the text before `id=`
      holds no `f` and no `=`, and the query after it no `/`. */
  lemma IdParameterRoundTrip(prefix: string, id: string, suffix: string)
    requires 'f' !in prefix && '=' !in prefix
    requires |id| > 0 && AllIdChars(id)
    requires suffix == [] || !IsIdChar(suffix[0])
    requires '/' !in suffix
    ensures ExtractFolderId(prefix + IdLit + id + suffix) == id
  {
    var u := prefix + IdLit + id + suffix;
    NoSlashMarker(u, prefix, id, suffix, FoldersLit);
    NoSlashMarker(u, prefix, id, suffix, FolderViewLit);
    NoEarlyIdParameter(u, prefix, id, suffix);
    CaptureAfter(prefix, IdLit, id, suffix);
  }

  /** With no `=` before it, `id=` first matches where the prefix ends. */
  lemma NoEarlyIdParameter(u: string, prefix: string, id: string, suffix: string)
    requires u == prefix + IdLit + id + suffix
    requires '=' !in prefix
    ensures forall j :: 0 <= j < |prefix| ==> !MatchAt(u, IdLit, j)
  {
    var p := |prefix|;
    forall j | 0 <= j < p ensures !MatchAt(u, IdLit, j) {
      assert u[j..j + |IdLit|][2] == u[j + 2];
      assert j + 2 < p ==> u[j + 2] == prefix[j + 2];
      assert u[p] == 'i' && u[p + 1] == 'd';
    }
  }

  /** A literal followed by an id run captures that run, when nothing matches earlier. */
  lemma CaptureAfter(prefix: string, lit: string, id: string, suffix: string)
    requires |id| > 0 && AllIdChars(id)
    requires suffix == [] || !IsIdChar(suffix[0])
    requires forall j :: 0 <= j < |prefix| ==> !MatchAt(prefix + lit + id + suffix, lit, j)
    ensures Capture(prefix + lit + id + suffix, lit) == Some(id)
  {
    var u := LiteralAt(prefix, lit, id + suffix);
    var p := |prefix|;
    assert u == prefix + lit + id + suffix;
    assert MatchAt(u, lit, p);
    SearchFinds(u, lit, p);
    IdRunOf(id, suffix);
  }

  /** The literal sits right after the prefix, with the rest after it. */
  lemma LiteralAt(prefix: string, lit: string, rest: string) returns (u: string)
    ensures u == prefix + lit + rest
    ensures OccursAt(u, lit, |prefix|) && u[|prefix| + |lit|..] == rest
  {
    u := prefix + lit + rest;
    assert u[|prefix|..|prefix| + |lit|] == lit;
  }

  /** The search from the start stops at the first match. */
  lemma SearchFinds(s: string, lit: string, p: nat)
    requires MatchAt(s, lit, p)
    requires forall j :: 0 <= j < p ==> !MatchAt(s, lit, j)
    ensures Search(s, lit, 0) == Some(p)
  {
  }

  /** A marker `/f...` cannot match a URL whose only `/` characters are in an
      `f`-free prefix. */
  lemma NoSlashMarker(u: string, prefix: string, id: string, suffix: string, lit: string)
    requires u == prefix + IdLit + id + suffix
    requires 'f' !in prefix && AllIdChars(id) && '/' !in suffix
    requires |lit| >= 2 && lit[0] == '/' && lit[1] == 'f'
    ensures forall j :: !MatchAt(u, lit, j)
  {
    forall j | OccursAt(u, lit, j) ensures u[j] == '/' && u[j + 1] == 'f' {
      assert u[j..j + |lit|][0] == u[j] && u[j..j + |lit|][1] == u[j + 1];
    }
    var p := |prefix|;
    forall j | 0 <= j && j + 1 < |u| ensures u[j] != '/' || u[j + 1] != 'f' {
      assert j + 1 < p ==> u[j + 1] == prefix[j + 1];
      assert p <= j + 1 < p + 3 ==> u[j + 1] == IdLit[j + 1 - p];
      assert p <= j < p + 3 ==> u[j] == IdLit[j - p];
      assert p + 3 <= j < p + 3 + |id| ==> u[j] == id[j - p - 3];
      assert p + 3 + |id| <= j ==> u[j] == suffix[j - p - 3 - |id|];
    }
  }

  /** A literal cannot match where one of its characters is missing. */
  lemma NoMatchWithout(s: string, lit: string, k: nat)
    requires k < |lit| && lit[k] !in s
    ensures forall j :: !MatchAt(s, lit, j)
  {
  }

  /** A bare folder id (no `/`, `?` or `=`) is its own folder id. */
  lemma BareIdentity(s: string)
    requires '/' !in s && '?' !in s && '=' !in s
    ensures ExtractFolderId(s) == s
  {
    NoMatchWithout(s, FoldersLit, 0);
    NoMatchWithout(s, FolderViewLit, 0);
    NoMatchWithout(s, IdLit, 2);
    var last := LastSegment(s, '/');
    assert last == s;
    assert FirstSegment(last, '?') == s;
  }

  // ---- Recursive listing ----

  /** `str(e)` and `e.resp.status` of an `HttpError`. */
  datatype HttpError = HttpError(status: int, message: string)

  /** One `files` entry of a list response. The contents are what listing this item
      as a folder reveals; they are read only when the item is a folder. */
  datatype Item = Item(id: string, name: string, mimeType: string, size: Option<nat>, modified: Option<string>, contents: Listing)

  datatype Page = Page(items: seq<Item>)

  /** How listing a folder stopped: the last page received had no `nextPageToken`,
      the next page request raised an `HttpError`, or it raised any other exception
      (a transport or credential failure), which nothing in the walk catches. */
  datatype End = Done | Refused(err: HttpError) | Raised(message: string)

  /** What listing one folder yields: the pages received in order, then how it stopped. */
  datatype Listing = Listing(pages: seq<Page>, end: End)

  /** `f"{path}/{name}" if path else name`. */
  function JoinPath(path: string, name: string): string {
    if path == "" then name else path + "/" + name
  }

  /** The descriptor of a non-folder item found in folder `folderId`. */
  function Describe(folderId: string, path: string, item: Item): (f: FileInfo)
    ensures f.id == Some(item.id) && f.name == item.name && f.path == path
    ensures f.size == Some(item.size.GetOr(0)) && f.mimeType == Some(item.mimeType)
    ensures f.parentId == Some(folderId)
  {
    FileInfo(Some(item.id), item.name, path, Some(item.size.GetOr(0)), Some(item.mimeType), item.modified, Some(folderId))
  }

  /** `p` lies in the folder at `path`: below it when `path` is non-empty. */
  predicate Under(path: string, p: string) {
    path == "" || (|p| > |path| && p[..|path| + 1] == path + "/")
  }

  /** Every entry is a non-folder file under `path`, with a parent and a size. */
  predicate Listed(path: string, fs: seq<FileInfo>) {
    forall i :: 0 <= i < |fs| ==>
      fs[i].mimeType != Some(FolderMime) && fs[i].parentId.Some? && Under(path, fs[i].path) && fs[i].size.Some?
  }

  /** What `_list_files_recursive(folderId, path)` returns or raises: the files of
      every page, subfolders expanded in place. An `HttpError` ends that folder's walk
      quietly; any other exception ends the whole walk. */
  function Flatten(folderId: string, path: string, l: Listing): (r: Result<seq<FileInfo>>)
    ensures r.Ok? ==> Listed(path, r.value)
    decreases l, 1
  {
    match FlattenPages(folderId, path, l.pages)
    case Err(m) => Err(m)
    case Ok(fs) => if l.end.Raised? then Err(l.end.message) else Ok(fs)
  }

  function FlattenPages(folderId: string, path: string, pages: seq<Page>): (r: Result<seq<FileInfo>>)
    ensures r.Ok? ==> Listed(path, r.value)
    decreases pages, 0
  {
    if |pages| == 0 then Ok([])
    else
      match FlattenItems(folderId, path, pages[0].items)
      case Err(m) => Err(m)
      case Ok(a) =>
        match FlattenPages(folderId, path, pages[1..])
        case Err(m) => Err(m)
        case Ok(b) => Ok(a + b)
  }

  function FlattenItems(folderId: string, path: string, items: seq<Item>): (r: Result<seq<FileInfo>>)
    ensures r.Ok? ==> Listed(path, r.value)
    decreases items
  {
    if |items| == 0 then Ok([])
    else
      var item := items[0];
      var p := JoinPath(path, item.name);
      var head := if item.mimeType == FolderMime then Flatten(item.id, p, item.contents)
                  else Ok([Describe(folderId, p, item)]);
      match head
      case Err(m) => Err(m)
      case Ok(a) =>
        assert Listed(path, a) by {
          forall i | 0 <= i < |a| ensures Under(path, a[i].path) {
            UnderJoin(path, item.name, a[i].path);
          }
        }
        match FlattenItems(folderId, path, items[1..])
        case Err(m) => Err(m)
        case Ok(b) => Ok(a + b)
  }

  /** Anything under `path/name` (or equal to it) is under `path`. */
  lemma UnderJoin(path: string, name: string, p: string)
    requires Under(JoinPath(path, name), p) || p == JoinPath(path, name)
    ensures Under(path, p)
  {
    if path != "" {
      var q := JoinPath(path, name);
      assert q[..|path| + 1] == path + "/";
      if p != q {
        assert p[..|q| + 1][..|path| + 1] == p[..|path| + 1];
      }
    }
  }

  // ---- What the walk finds, stated independently ----

  /** `f` describes a non-folder item on a page received for folder `folderId`
      (reached at `path`), or, recursively, one inside a subfolder listed there: its
      parent is the folder that holds it, its path that folder's path joined with its
      name. */
  ghost predicate InTree(folderId: string, path: string, l: Listing, f: FileInfo)
    decreases l, 1
  {
    exists i :: 0 <= i < |l.pages| && InItems(folderId, path, l.pages[i].items, f)
  }

  ghost predicate InItems(folderId: string, path: string, items: seq<Item>, f: FileInfo)
    decreases items, 1
  {
    exists k :: 0 <= k < |items| && InItem(folderId, path, items[k], f)
  }

  ghost predicate InItem(folderId: string, path: string, item: Item, f: FileInfo)
    decreases item, 0
  {
    if item.mimeType == FolderMime then InTree(item.id, JoinPath(path, item.name), item.contents, f)
    else f == Describe(folderId, JoinPath(path, item.name), item)
  }

  /** Some page request of the walk (of this folder, or of a subfolder listed on a
      received page) raised an exception other than `HttpError`. */
  ghost predicate RaisesIn(l: Listing)
    decreases l, 1
  {
    l.end.Raised? || exists i :: 0 <= i < |l.pages| && RaisesInItems(l.pages[i].items)
  }

  ghost predicate RaisesInItems(items: seq<Item>)
    decreases items
  {
    exists k :: 0 <= k < |items| && items[k].mimeType == FolderMime && RaisesIn(items[k].contents)
  }

  /** The walk raises exactly when some request in it raised something other than an
      `HttpError`; otherwise it lists exactly the files of the tree. */
  lemma {:induction false} FlattenTree(folderId: string, path: string, l: Listing, f: FileInfo)
    ensures Flatten(folderId, path, l).Err? <==> RaisesIn(l)
    ensures Flatten(folderId, path, l).Ok? ==> (f in Flatten(folderId, path, l).value <==> InTree(folderId, path, l, f))
    decreases l, 1
  {
    FlattenPagesTree(folderId, path, l.pages, f);
  }

  lemma {:induction false} FlattenPagesTree(folderId: string, path: string, pages: seq<Page>, f: FileInfo)
    ensures FlattenPages(folderId, path, pages).Err? <==> exists i :: 0 <= i < |pages| && RaisesInItems(pages[i].items)
    ensures FlattenPages(folderId, path, pages).Ok? ==>
      (f in FlattenPages(folderId, path, pages).value <==> exists i :: 0 <= i < |pages| && InItems(folderId, path, pages[i].items, f))
    decreases pages, 0
  {
    if |pages| > 0 {
      FlattenItemsTree(folderId, path, pages[0].items, f);
      FlattenPagesTree(folderId, path, pages[1..], f);
      assert forall i :: 0 < i < |pages| ==> pages[i] == pages[1..][i - 1];
      assert (exists i :: 0 <= i < |pages| && RaisesInItems(pages[i].items))
        <==> RaisesInItems(pages[0].items) || exists i :: 0 <= i < |pages[1..]| && RaisesInItems(pages[1..][i].items) by {
        if exists i :: 0 <= i < |pages[1..]| && RaisesInItems(pages[1..][i].items) {
          var i :| 0 <= i < |pages[1..]| && RaisesInItems(pages[1..][i].items);
          assert pages[i + 1] == pages[1..][i];
        }
      }
      assert (exists i :: 0 <= i < |pages| && InItems(folderId, path, pages[i].items, f))
        <==> InItems(folderId, path, pages[0].items, f)
             || exists i :: 0 <= i < |pages[1..]| && InItems(folderId, path, pages[1..][i].items, f) by {
        if exists i :: 0 <= i < |pages[1..]| && InItems(folderId, path, pages[1..][i].items, f) {
          var i :| 0 <= i < |pages[1..]| && InItems(folderId, path, pages[1..][i].items, f);
          assert pages[i + 1] == pages[1..][i];
        }
      }
    }
  }

  lemma {:induction false} FlattenItemsTree(folderId: string, path: string, items: seq<Item>, f: FileInfo)
    ensures FlattenItems(folderId, path, items).Err? <==> RaisesInItems(items)
    ensures FlattenItems(folderId, path, items).Ok? ==>
      (f in FlattenItems(folderId, path, items).value <==> InItems(folderId, path, items, f))
    decreases items
  {
    if |items| > 0 {
      var item := items[0];
      if item.mimeType == FolderMime {
        FlattenTree(item.id, JoinPath(path, item.name), item.contents, f);
      }
      FlattenItemsTree(folderId, path, items[1..], f);
      assert forall k :: 0 < k < |items| ==> items[k] == items[1..][k - 1];
      assert RaisesInItems(items) <==> (item.mimeType == FolderMime && RaisesIn(item.contents)) || RaisesInItems(items[1..]) by {
        if RaisesInItems(items[1..]) {
          var k :| 0 <= k < |items[1..]| && items[1..][k].mimeType == FolderMime && RaisesIn(items[1..][k].contents);
          assert items[k + 1] == items[1..][k];
        }
      }
      assert InItems(folderId, path, items, f) <==> InItem(folderId, path, item, f) || InItems(folderId, path, items[1..], f) by {
        if InItems(folderId, path, items[1..], f) {
          var k :| 0 <= k < |items[1..]| && InItem(folderId, path, items[1..][k], f);
          assert items[k + 1] == items[1..][k];
        }
      }
    }
  }

  /** A single page of plain files lists each file once, in order, named by itself at
      the top level, with the folder as its parent. */
  lemma {:induction false} FlatPage(folderId: string, items: seq<Item>)
    requires forall k :: 0 <= k < |items| ==> items[k].mimeType != FolderMime
    ensures FlattenItems(folderId, "", items).Ok?
    ensures |FlattenItems(folderId, "", items).value| == |items|
    ensures forall k :: 0 <= k < |items| ==>
      FlattenItems(folderId, "", items).value[k] == Describe(folderId, items[k].name, items[k])
  {
    if |items| > 0 {
      FlatPage(folderId, items[1..]);
      assert JoinPath("", items[0].name) == items[0].name;
      var rest := FlattenItems(folderId, "", items[1..]).value;
      assert FlattenItems(folderId, "", items) == Ok([Describe(folderId, items[0].name, items[0])] + rest);
      assert forall k :: 0 < k < |items| ==> items[k] == items[1..][k - 1];
    }
  }

  /** Files in a subfolder carry the subfolder's id as parent and its path as prefix. */
  lemma NestedFile(folderId: string, sub: Item, file: Item)
    requires sub.mimeType == FolderMime && file.mimeType != FolderMime && sub.name != ""
    requires sub.contents == Listing([Page([file])], Done)
    ensures Flatten(folderId, "", Listing([Page([sub])], Done))
      == Ok([Describe(sub.id, sub.name + "/" + file.name, file)])
  {
    var inner := [Describe(sub.id, sub.name + "/" + file.name, file)];
    assert JoinPath(sub.name, file.name) == sub.name + "/" + file.name;
    assert JoinPath("", sub.name) == sub.name;
    var ps, qs := [Page([file])], [Page([sub])];
    assert ps[0].items == [file] && ps[1..] == [] && [file][1..] == [];
    assert qs[0].items == [sub] && qs[1..] == [] && [sub][1..] == [];
    assert inner + [] == inner;
    assert FlattenItems(sub.id, sub.name, [file]) == Ok(inner);
    assert FlattenPages(sub.id, sub.name, ps) == Ok(inner);
    assert Flatten(sub.id, sub.name, sub.contents) == Ok(inner);
    assert FlattenItems(folderId, "", [sub]) == Ok(inner);
    assert FlattenPages(folderId, "", qs) == Ok(inner);
  }

  // ---- The service and its operations ----

  /** What a Drive API call yields: an answer, an `HttpError`, or any other exception
      (which every operation lets through unchanged). */
  datatype ApiResult<T> = Answer(value: T) | HttpFailure(err: HttpError) | Crash(message: string)

  /** `files().get(fileId)`: the name, and the size when the file has one. */
  datatype Metadata = Metadata(name: string, size: Option<int>)

  /** A chunked media transfer: the status of each `next_chunk` call (its
      `resumable_progress`, or `None` when no status came back), then the outcome. */
  datatype Chunked<T> = Chunked(progress: seq<Option<int>>, end: ApiResult<T>)

  datatype FolderRequest = FolderRequest(name: string, mimeType: string, parents: Option<seq<string>>)
  datatype UploadRequest = UploadRequest(name: string, parents: seq<string>, content: Bytes)
  datatype CopyRequest = CopyRequest(sourceId: string, parents: seq<string>, name: string)

  /** The Drive v3 endpoints the adapter calls, each as a function of its request. */
  datatype DriveApi = DriveApi(
    tree: string -> Listing,
    metadata: string -> ApiResult<Metadata>,
    media: string -> Chunked<Bytes>,
    createFolder: FolderRequest -> ApiResult<string>,
    upload: UploadRequest -> Chunked<string>,
    copy: CopyRequest -> ApiResult<string>,
    folderFiles: string -> ApiResult<seq<FileInfo>>)

  /** The service: whether a client was built at start-up, the configured landing
      zone folder, and the API. */
  datatype Drive = Drive(client: bool, landingZone: Option<string>, api: DriveApi)

  /** An API answer as the operation returns it: `HttpError` becomes
      `Exception(f"Failed to {what}: {e}")`, other exceptions pass through. */
  function Lift<T>(what: string, a: ApiResult<T>): (r: Result<T>)
    ensures a.Answer? <==> r.Ok?
    ensures a.Answer? ==> r.value == a.value
    ensures a.HttpFailure? ==> r.error == "Failed to " + what + ": " + a.err.message
    ensures a.Crash? ==> r.error == a.message
  {
    match a
    case Answer(v) => Ok(v)
    case HttpFailure(e) => Err("Failed to " + what + ": " + e.message)
    case Crash(m) => Err(m)
  }

  /** The callbacks a chunked transfer makes: one per chunk that reported a status,
      with the given total, and none when callbacks are disabled. */
  function Reported(progress: seq<Option<int>>, total: int, enabled: bool): (r: seq<Progress>)
    ensures !enabled ==> r == []
    ensures |r| <= |progress|
    ensures forall i :: 0 <= i < |r| ==> r[i].total == total
    ensures enabled && (forall i :: 0 <= i < |progress| ==> progress[i].Some?) ==>
      r == seq(|progress|, i requires 0 <= i < |progress| => Progress(progress[i].value, total))
  {
    if !enabled || |progress| == 0 then []
    else
      var rest := Reported(progress[1..], total, enabled);
      match progress[0]
      case Some(n) => [Progress(n, total)] + rest
      case None => rest
  }

  /** `FlattenTree` for every file at once. */
  lemma FlattenTreeAll(folderId: string, l: Listing)
    ensures Flatten(folderId, "", l).Err? <==> RaisesIn(l)
    ensures Flatten(folderId, "", l).Ok? ==>
      forall f :: f in Flatten(folderId, "", l).value <==> InTree(folderId, "", l, f)
  {
    forall f ensures Flatten(folderId, "", l).Ok? ==> (f in Flatten(folderId, "", l).value <==> InTree(folderId, "", l, f)) {
      FlattenTree(folderId, "", l, f);
    }
    FlattenTree(folderId, "", l, FileInfo(None, "", "", None, None, None, None));
  }

  /** `list_files` as written: the files of the tree under the link's folder. An
      `HttpError` never reaches the error mapping, because the recursive walk catches
      every one itself; any other exception escapes unchanged. */
  function ListFiles(d: Drive, url: string): (r: Result<seq<FileInfo>>)
    ensures !d.client ==> r == Err(NotInitialized)
    ensures d.client ==> (r.Err? <==> RaisesIn(d.api.tree(ExtractFolderId(url))))
    ensures r.Ok? ==>
      forall f :: f in r.value <==> InTree(ExtractFolderId(url), "", d.api.tree(ExtractFolderId(url)), f)
  {
    if !d.client then Err(NotInitialized)
    else
      var folderId := ExtractFolderId(url);
      FlattenTreeAll(folderId, d.api.tree(folderId));
      Flatten(folderId, "", d.api.tree(folderId))
  }

  /** The three messages `list_files` maps an `HttpError` on the folder to. */
  function ListErrorMessage(folderId: string, e: HttpError): string {
    if e.status == 404 then "Folder not found or not accessible: " + folderId
    else if e.status == 403 then "Permission denied accessing folder: " + folderId
    else "Google Drive API error: " + e.message
  }

  /** `list_files` with the error mapping reachable: an `HttpError` listing the
      requested folder itself raises the mapped message; subfolder refusals are still
      skipped, and any other exception still escapes. */
  function ListFilesChecked(d: Drive, url: string): (r: Result<seq<FileInfo>>)
    ensures r.Ok? ==> r == ListFiles(d, url)
    ensures !d.api.tree(ExtractFolderId(url)).end.Refused? ==> r == ListFiles(d, url)
    ensures d.client && d.api.tree(ExtractFolderId(url)).end.Refused? ==>
      var folderId := ExtractFolderId(url);
      var l := d.api.tree(folderId);
      r.Err? && (!RaisesIn(l) ==> r.error == ListErrorMessage(folderId, l.end.err))
  {
    if !d.client then Err(NotInitialized)
    else
      var folderId := ExtractFolderId(url);
      var l := d.api.tree(folderId);
      FlattenTreeAll(folderId, l);
      FlattenPagesTree(folderId, "", l.pages, FileInfo(None, "", "", None, None, None, None));
      match FlattenPages(folderId, "", l.pages)
      case Err(m) => Err(m)
      case Ok(fs) =>
        match l.end
        case Done => Ok(fs)
        case Refused(e) => Err(ListErrorMessage(folderId, e))
        case Raised(m) => Err(m)
  }

  /** As written, a folder the API refuses outright lists as an empty folder. */
  lemma RefusedFolderLooksEmpty(d: Drive, url: string, e: HttpError)
    requires d.client && d.api.tree(ExtractFolderId(url)) == Listing([], Refused(e))
    ensures ListFiles(d, url) == Ok([])
  {
    assert FlattenPages(ExtractFolderId(url), "", []) == Ok([]);
  }

  /** With the mapping reachable, the refusal is reported, by status. */
  lemma RefusedFolderReported(d: Drive, url: string, e: HttpError)
    requires d.client && d.api.tree(ExtractFolderId(url)) == Listing([], Refused(e))
    ensures e.status == 404 ==> ListFilesChecked(d, url) == Err("Folder not found or not accessible: " + ExtractFolderId(url))
    ensures e.status == 403 ==> ListFilesChecked(d, url) == Err("Permission denied accessing folder: " + ExtractFolderId(url))
    ensures e.status != 404 && e.status != 403 ==> ListFilesChecked(d, url) == Err("Google Drive API error: " + e.message)
  {
  }

  /** `create_folder`'s parent: the given one if truthy, else the landing zone if truthy. */
  function FolderParent(given: Option<string>, landingZone: Option<string>): (r: Option<string>)
    ensures r.Some? ==> r.value != ""
    ensures Truthy(given) ==> r == given
    ensures !Truthy(given) ==> (r.Some? <==> Truthy(landingZone)) && (r.Some? ==> r == landingZone)
  {
    if Truthy(given) then given else if Truthy(landingZone) then landingZone else None
  }

  /** The metadata `create_folder` sends: `parents` only when a parent was chosen. */
  function FolderRequestFor(name: string, parent: Option<string>): FolderRequest {
    FolderRequest(name, FolderMime, if parent.Some? then Some([parent.value]) else None)
  }

  function CreateFolder(d: Drive, name: string, parent: Option<string>): Result<string> {
    if !d.client then Err(NotInitialized)
    else Lift("create folder", d.api.createFolder(FolderRequestFor(name, FolderParent(parent, d.landingZone))))
  }

  /** The folder request: always a folder of the given name; its parent is the given
      one, else the landing zone, else the key is omitted. */
  lemma CreateFolderRequest(d: Drive, name: string, parent: Option<string>)
    requires d.client
    ensures var req := FolderRequestFor(name, FolderParent(parent, d.landingZone));
      && CreateFolder(d, name, parent) == Lift("create folder", d.api.createFolder(req))
      && req.name == name && req.mimeType == FolderMime
      && (Truthy(parent) ==> req.parents == Some([parent.value]))
      && (!Truthy(parent) && Truthy(d.landingZone) ==> req.parents == Some([d.landingZone.value]))
      && (!Truthy(parent) && !Truthy(d.landingZone) ==> req.parents.None?)
  {
  }

  /** `download_file`: metadata first (its size, 0 when absent), then the media; the
      callback only fires when one is given and the size is positive. */
  function DownloadFile(d: Drive, fileId: string, hasCallback: bool): (r: AdapterCall<Bytes>)
    ensures !d.client ==> r == AdapterCall([], Err(NotInitialized))
    ensures forall i :: 0 <= i < |r.callbacks| ==> hasCallback && r.callbacks[i].total > 0
  {
    if !d.client then AdapterCall([], Err(NotInitialized))
    else
      match d.api.metadata(fileId)
      case HttpFailure(e) => AdapterCall([], Err("Failed to download file: " + e.message))
      case Crash(m) => AdapterCall([], Err(m))
      case Answer(meta) =>
        var size := meta.size.GetOr(0);
        var media := d.api.media(fileId);
        AdapterCall(Reported(media.progress, size, hasCallback && size > 0), Lift("download file", media.end))
  }

  /** `upload_file`: the content goes up under the given name into the given folder;
      callbacks report against the content length, with no positivity check. */
  function UploadFile(d: Drive, name: string, content: Bytes, parent: string, hasCallback: bool): (r: AdapterCall<string>)
    ensures !d.client ==> r == AdapterCall([], Err(NotInitialized))
    ensures forall i :: 0 <= i < |r.callbacks| ==> hasCallback && r.callbacks[i].total == |content|
  {
    if !d.client then AdapterCall([], Err(NotInitialized))
    else
      var up := d.api.upload(UploadRequest(name, [parent], content));
      AdapterCall(Reported(up.progress, |content|, hasCallback), Lift("upload file", up.end))
  }

  /** The name a direct copy gets: the new name if truthy, else the source's. */
  function CopyName(newName: Option<string>, sourceName: string): (r: string)
    ensures Truthy(newName) ==> r == newName.value
    ensures !Truthy(newName) ==> r == sourceName
  {
    if Truthy(newName) then newName.value else sourceName
  }

  /** `copy_file_direct`. */
  function CopyFileDirect(d: Drive, sourceId: string, destId: string, newName: Option<string>, hasCallback: bool): AdapterCall<string> {
    if !d.client then AdapterCall([], Err(NotInitialized))
    else
      match d.api.metadata(sourceId)
      case HttpFailure(e) => AdapterCall([], Err("Failed to copy file: " + e.message))
      case Crash(m) => AdapterCall([], Err(m))
      case Answer(meta) =>
        match d.api.copy(CopyRequest(sourceId, [destId], CopyName(newName, meta.name)))
        case Answer(id) => AdapterCall(if hasCallback then [Progress(100, 100)] else [], Ok(id))
        case HttpFailure(e) => AdapterCall([], Err("Failed to copy file: " + e.message))
        case Crash(m) => AdapterCall([], Err(m))
  }

  /** A successful copy asked for the source in the destination folder under the new
      name (or the source's own), and called back exactly once, with (100, 100), iff a
      callback was given; a failed one made no callback. */
  lemma CopySpec(d: Drive, sourceId: string, destId: string, newName: Option<string>, hasCallback: bool)
    ensures var c := CopyFileDirect(d, sourceId, destId, newName, hasCallback);
      && (c.result.Ok? ==>
            d.client && d.api.metadata(sourceId).Answer?
            && d.api.copy(CopyRequest(sourceId, [destId], CopyName(newName, d.api.metadata(sourceId).value.name)))
               == Answer(c.result.value)
            && c.callbacks == (if hasCallback then [Progress(100, 100)] else []))
      && (c.result.Err? ==> c.callbacks == [])
  {
  }

  /** `list_files_in_folder`: the folder's non-folder files. */
  function ListFilesInFolder(d: Drive, folderId: string): (r: Result<seq<FileInfo>>)
    ensures !d.client ==> r == Err(NotInitialized)
  {
    if !d.client then Err(NotInitialized)
    else Lift("list files", d.api.folderFiles(folderId))
  }

  /** Without a client every operation raises the same error before calling the API
      and makes no callback. */
  lemma NotInitializedGuards(d: Drive, url: string, id: string, folder: string, name: string,
                             content: Bytes, parent: Option<string>, newName: Option<string>, cb: bool)
    requires !d.client
    ensures ListFiles(d, url) == Err(NotInitialized)
    ensures ListFilesChecked(d, url) == Err(NotInitialized)
    ensures DownloadFile(d, id, cb) == AdapterCall([], Err(NotInitialized))
    ensures CreateFolder(d, name, parent) == Err(NotInitialized)
    ensures UploadFile(d, name, content, folder, cb) == AdapterCall([], Err(NotInitialized))
    ensures CopyFileDirect(d, id, folder, newName, cb) == AdapterCall([], Err(NotInitialized))
    ensures ListFilesInFolder(d, folder) == Err(NotInitialized)
  {
  }
}
