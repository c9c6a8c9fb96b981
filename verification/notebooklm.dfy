/** The NotebookLM adapter, whose every operation degrades to a stand-in result
    instead of raising. The HTTP endpoint is a record of functions from a request to
    what the call yields. */
module NotebookLM {
  import opened Wrappers
  import opened Text
  import opened Json
  import opened Records

  /** An HTTP call: a response (its status, and its body when the body parses as
      JSON), or an exception raised on the way (token refresh, network). */
  datatype HttpOutcome = Response(status: int, body: Option<Json>) | Raised(message: string)

  /** The payload `upload_file` posts for one Drive file. */
  datatype SourceRequest = SourceRequest(notebookId: string, fileId: string, fileName: string, mimeType: string)

  datatype NotebookApi = NotebookApi(
    create: string -> HttpOutcome,
    addSource: SourceRequest -> HttpOutcome,
    get: string -> HttpOutcome)

  /** Whether credentials were loaded at start-up, and the endpoint. */
  datatype Service = Service(hasCredentials: bool, api: NotebookApi)

  const MockPrefix := "mock_notebook_"

  /** The stand-in id: the name with spaces turned into `_`, lowered, after a fixed prefix. */
  function MockNotebookId(name: string): (r: string)
    ensures |r| == |MockPrefix| + |name| && r[..|MockPrefix|] == MockPrefix
    ensures ' ' !in r
    ensures forall k :: 0 <= k < |name| ==> r[|MockPrefix| + k] == LowerChar(if name[k] == ' ' then '_' else name[k])
  {
    var low := Lower(ReplaceChar(name, ' ', '_'));
    assert ' ' !in low by {
      forall k | 0 <= k < |low| ensures low[k] != ' ' {
      }
    }
    MockPrefix + low
  }

  /** `body.get('name', '').split('/')[-1]`, or `None` where that raises (the body is
      no object, or its `name` is no string). */
  function NotebookName(body: Json): (r: Option<string>)
    ensures r.Some? ==> '/' !in r.value
    ensures body.JObj? && "name" !in body.fields ==> r == Some("")
    ensures body.JObj? && "name" in body.fields && body.fields["name"].JStr? ==>
      r == Some(LastSegment(body.fields["name"].s, '/'))
    ensures r.None? <==> !body.JObj? || ("name" in body.fields && !body.fields["name"].JStr?)
  {
    match body
    case JObj(fields) =>
      if "name" !in fields then Some("")
      else if fields["name"].JStr? then Some(LastSegment(fields["name"].s, '/'))
      else None
    case _ => None
  }

  /** `create_notebook`: the id from a 200 response, otherwise the stand-in id. */
  function CreateNotebook(s: Service, name: string): (r: string)
    ensures r != MockNotebookId(name) ==>
      s.hasCredentials && s.api.create(name).Response? && s.api.create(name).status == 200
  {
    if !s.hasCredentials then MockNotebookId(name)
    else
      match s.api.create(name)
      case Raised(_) => MockNotebookId(name)
      case Response(status, body) =>
        if status != 200 || body.None? then MockNotebookId(name)
        else NotebookName(body.value).GetOr(MockNotebookId(name))
  }

  /** Every failure yields the stand-in id; a 200 response whose body names the
      notebook yields the name's last path segment. */
  lemma CreateNotebookSpec(s: Service, name: string)
    ensures !s.hasCredentials ==> CreateNotebook(s, name) == MockNotebookId(name)
    ensures s.api.create(name).Raised? ==> CreateNotebook(s, name) == MockNotebookId(name)
    ensures s.api.create(name).Response? && s.api.create(name).status != 200 ==>
      CreateNotebook(s, name) == MockNotebookId(name)
    ensures (&& s.hasCredentials && s.api.create(name).Response? && s.api.create(name).status == 200
             && s.api.create(name).body.Some? && NotebookName(s.api.create(name).body.value).Some?) ==>
      CreateNotebook(s, name) == NotebookName(s.api.create(name).body.value).value
  {
  }

  /** What `upload_file` reports: its return value, and whether the service took the
      source (as opposed to the "mock upload" path). */
  datatype UploadReport = UploadReport(success: bool, accepted: bool)

  /** `upload_file`: the request needs the file's id and MIME type (a missing key
      raises inside the guarded block). */
  function UploadFile(s: Service, notebookId: string, info: FileInfo): (r: UploadReport)
    ensures r.success
    ensures r.accepted <==>
      s.hasCredentials && info.id.Some? && info.mimeType.Some?
      && var out := s.api.addSource(SourceRequest(notebookId, info.id.value, info.name, info.mimeType.value));
         out.Response? && (out.status == 200 || out.status == 201)
  {
    if !s.hasCredentials || info.id.None? || info.mimeType.None? then UploadReport(true, false)
    else
      match s.api.addSource(SourceRequest(notebookId, info.id.value, info.name, info.mimeType.value))
      case Raised(_) => UploadReport(true, false)
      case Response(status, _) => UploadReport(true, status == 200 || status == 201)
  }

  /** The two fixed status dicts. */
  function StatusDict(status: string): Json {
    JObj(map["status" := JStr(status), "sources_count" := JInt(0)])
  }

  /** `get_notebook_status`: the body of a 200 response; `unknown` for any other
      status; `mock_active` when the call or the body's parsing raises. */
  function GetNotebookStatus(s: Service, notebookId: string): (r: Json)
    ensures !s.hasCredentials || s.api.get(notebookId).Raised? ==> r == StatusDict("mock_active")
    ensures s.hasCredentials && s.api.get(notebookId).Response? ==>
      var out := s.api.get(notebookId);
      && (out.status != 200 ==> r == StatusDict("unknown"))
      && (out.status == 200 && out.body.Some? ==> r == out.body.value)
      && (out.status == 200 && out.body.None? ==> r == StatusDict("mock_active"))
  {
    if !s.hasCredentials then StatusDict("mock_active")
    else
      match s.api.get(notebookId)
      case Raised(_) => StatusDict("mock_active")
      case Response(status, body) =>
        if status != 200 then StatusDict("unknown")
        else if body.Some? then body.value
        else StatusDict("mock_active")
  }
}
