/** The start-up configuration check: each rule appends its complaints to a list
    of errors or of warnings and answers whether the setting passes. The file
    system, reading the key file and creating directories are parameters. */
module ConfigValidator {
  import opened Wrappers
  import opened Text
  import opened Json
  import Config

  /** The mark that opens every error line, and the one that opens every warning. */
  const Cross := "\U{274C} "
  const Caution := "\U{26A0}\U{FE0F} "

  /** The messages gathered so far. */
  datatype Log = Log(errors: seq<string>, warnings: seq<string>)

  /** A rule's answer and the messages after it. */
  datatype Checked = Checked(ok: bool, log: Log)

  function AddError(log: Log, msg: string): Log {
    log.(errors := log.errors + [Cross + msg])
  }

  function AddWarning(log: Log, msg: string): Log {
    log.(warnings := log.warnings + [Caution + msg])
  }

  /** `not value or value.strip() == ""`. */
  predicate Missing(value: Option<string>) {
    value.None? || IsBlank(value.value)
  }

  /** `validate_string`: a missing value is one error and a failure when required,
      one warning and a pass when optional; a present value passes silently. */
  function ValidateString(log: Log, value: Option<string>, description: string, required: bool): (r: Checked)
    ensures r.ok <==> !(required && Missing(value))
    ensures !Missing(value) ==> r.log == log
    ensures Missing(value) && required ==>
      r.log == AddError(log, description + ": Not configured")
    ensures Missing(value) && !required ==>
      r.log == AddWarning(log, description + ": Not configured (optional)")
  {
    if Missing(value) then
      if required then Checked(false, AddError(log, description + ": Not configured"))
      else Checked(true, AddWarning(log, description + ": Not configured (optional)"))
    else Checked(true, log)
  }

  const InsecureKeys: seq<string> := [
    "your-secret-key-here-change-in-production-REQUIRED",
    "dev-secret-key-change-in-production",
    "secret",
    "password",
    "12345"
  ]

  const MinSecretLength := 32

  /** What a secret key must be: set, not a known default, and long enough. */
  predicate SecureKey(key: Option<string>) {
    key.Some? && key.value !in InsecureKeys && |key.value| >= MinSecretLength
  }

  /** `validate_secret_key`: the first failing rule among unset, insecure and short
      adds its one error. */
  function ValidateSecretKey(log: Log, key: Option<string>): (r: Checked)
    ensures r.ok <==> SecureKey(key)
    ensures r.log.warnings == log.warnings
    ensures r.ok ==> r.log == log
    ensures !r.ok ==> |r.log.errors| == |log.errors| + 1 && r.log.errors[..|log.errors|] == log.errors
    ensures (key.None? || key.value == "") ==> r.log.errors == AddError(log, "Secret Key: Not configured").errors
    ensures key.Some? && key.value != "" && key.value in InsecureKeys ==>
      r.log.errors == AddError(log, "Secret Key: Using default/insecure secret key").errors
    ensures key.Some? && key.value !in InsecureKeys && 0 < |key.value| < MinSecretLength ==>
      r.log.errors == AddError(log, "Secret Key: Too short (minimum 32 characters)").errors
  {
    if key.None? || key.value == "" then Checked(false, AddError(log, "Secret Key: Not configured"))
    else if key.value in InsecureKeys then Checked(false, AddError(log, "Secret Key: Using default/insecure secret key"))
    else if |key.value| < MinSecretLength then Checked(false, AddError(log, "Secret Key: Too short (minimum 32 characters)"))
    else Checked(true, log)
  }

  /** The secret the settings fall back to is one of the insecure keys, so settings
      without a configured secret never pass. */
  lemma FallbackSecretRejected(log: Log, s: Config.Settings)
    requires Config.SecretKey(s) == Config.FallbackSecret
    ensures var r := ValidateSecretKey(log, Some(Config.SecretKey(s)));
      !r.ok && r.log.errors == AddError(log, "Secret Key: Using default/insecure secret key").errors
  {
    assert InsecureKeys[1] == Config.FallbackSecret;
  }

  /** The file system as the path checks see it. */
  datatype FileSystem = FileSystem(
    present: string -> bool,
    isFile: string -> bool,
    readable: string -> bool)

  /** `validate_file_path`. An empty or absent path, and a path that does not exist,
      are an error and a failure when required but a warning and a pass when not;
      a path that is no file or not readable fails with an error only when required,
      and passes silently otherwise. */
  function ValidateFilePath(log: Log, fs: FileSystem, path: Option<string>, description: string, required: bool): (r: Checked)
    ensures !required ==> r.ok && r.log.errors == log.errors
    ensures required ==> r.log.warnings == log.warnings
    ensures required ==> (r.ok <==> Truthy(path) && fs.present(path.value) && fs.isFile(path.value) && fs.readable(path.value))
    ensures required && r.ok ==> r.log == log
    ensures required && !r.ok ==> |r.log.errors| == |log.errors| + 1 && r.log.errors[..|log.errors|] == log.errors
    ensures !Truthy(path) && required ==> r.log.errors == AddError(log, description + ": Path not configured").errors
    ensures !Truthy(path) && !required ==>
      r.log.warnings == AddWarning(log, description + ": Not configured (optional)").warnings
    ensures Truthy(path) && !fs.present(path.value) && required ==>
      r.log.errors == AddError(log, description + ": File not found at " + path.value).errors
    ensures Truthy(path) && !fs.present(path.value) && !required ==>
      r.log.warnings == AddWarning(log, description + ": File not found at " + path.value + " (optional)").warnings
    ensures Truthy(path) && fs.present(path.value) && !required ==> r.log == log
  {
    if !Truthy(path) then
      if required then Checked(false, AddError(log, description + ": Path not configured"))
      else Checked(true, AddWarning(log, description + ": Not configured (optional)"))
    else
      var p := path.value;
      if !fs.present(p) then
        if required then Checked(false, AddError(log, description + ": File not found at " + p))
        else Checked(true, AddWarning(log, description + ": File not found at " + p + " (optional)"))
      else if !fs.isFile(p) && required then
        Checked(false, AddError(log, description + ": Path exists but is not a file: " + p))
      else if !fs.readable(p) && required then
        Checked(false, AddError(log, description + ": File exists but is not readable: " + p))
      else Checked(true, log)
  }

  /** The fields a service-account key file must hold, in the order they are checked. */
  const KeyFields: seq<string> := [
    "type", "project_id", "private_key_id", "private_key",
    "client_email", "client_id", "auth_uri", "token_uri"
  ]

  /** Reading the key file: a parsed JSON document, text that is no JSON, or any
      other failure with its message. */
  datatype KeyFile = Parsed(doc: Json) | NotJson | Unreadable(reason: string)

  function MissingFieldMessage(field: string): string {
    "Google Service Account: Missing field '" + field + "' in key file"
  }

  function ReadErrorMessage(reason: string): string {
    "Google Service Account: Error reading key file: " + reason
  }

  /** One error per field the document does not contain, in order. */
  function MissingFieldErrors(doc: Json, fields: seq<string>): (r: seq<string>)
    requires doc.JObj? || doc.JList? || doc.JStr?
    ensures |r| <= |fields|
    ensures r == [] <==> forall k :: 0 <= k < |fields| ==> Config.In(fields[k], doc) == Some(true)
    ensures forall k :: 0 <= k < |fields| && Config.In(fields[k], doc) == Some(false) ==>
      Cross + MissingFieldMessage(fields[k]) in r
    decreases |fields|
  {
    if |fields| == 0 then []
    else
      var rest := MissingFieldErrors(doc, fields[1..]);
      assert forall k :: 1 <= k < |fields| ==> fields[k] == fields[1..][k - 1];
      (if Config.In(fields[0], doc) == Some(true) then [] else [Cross + MissingFieldMessage(fields[0])]) + rest
  }

  const InvalidKeyType := "Google Service Account: Invalid key type (expected 'service_account')"

  /** The errors a dict key file adds. */
  function DictErrors(doc: Json): (r: seq<string>)
    requires doc.JObj?
    ensures r == [] <==>
      (forall k :: 0 <= k < |KeyFields| ==> KeyFields[k] in doc.fields) && Field(doc, "type") == Some(JStr("service_account"))
    ensures forall k :: 0 <= k < |KeyFields| && KeyFields[k] !in doc.fields ==> Cross + MissingFieldMessage(KeyFields[k]) in r
    ensures Field(doc, "type") != Some(JStr("service_account")) ==> r[|r| - 1] == Cross + InvalidKeyType
  {
    MissingFieldErrors(doc, KeyFields)
      + (if Field(doc, "type") != Some(JStr("service_account")) then [Cross + InvalidKeyType] else [])
  }

  /** The errors the key file's contents add. A dict gets one error per missing field
      and one more when its `type` is not `service_account`. A list or string is
      searched for the fields, then fails on `.get`. Any other value fails on the
      first membership test. It passes exactly when it is a dict holding every field
      with `type` set to `service_account`. */
  function KeyDocErrors(doc: Json): (r: seq<string>)
    ensures r == [] <==>
      && doc.JObj?
      && (forall k :: 0 <= k < |KeyFields| ==> KeyFields[k] in doc.fields)
      && Field(doc, "type") == Some(JStr("service_account"))
    ensures doc.JObj? ==>
      forall k :: 0 <= k < |KeyFields| && KeyFields[k] !in doc.fields ==> Cross + MissingFieldMessage(KeyFields[k]) in r
    ensures doc.JObj? && Field(doc, "type") != Some(JStr("service_account")) ==> r[|r| - 1] == Cross + InvalidKeyType
    ensures doc.JList? || doc.JStr? ==>
      r[|r| - 1] == Cross + ReadErrorMessage("'" + TypeName(doc) + "' object has no attribute 'get'")
    ensures !(doc.JObj? || doc.JList? || doc.JStr?) ==>
      r == [Cross + ReadErrorMessage("argument of type '" + TypeName(doc) + "' is not iterable")]
  {
    if doc.JObj? then DictErrors(doc)
    else if doc.JList? || doc.JStr? then
      MissingFieldErrors(doc, KeyFields) + [Cross + ReadErrorMessage("'" + TypeName(doc) + "' object has no attribute 'get'")]
    else [Cross + ReadErrorMessage("argument of type '" + TypeName(doc) + "' is not iterable")]
  }

  /** The errors from reading the key file. */
  function KeyFileErrors(key: KeyFile): (r: seq<string>)
    ensures key.Parsed? ==> r == KeyDocErrors(key.doc)
    ensures key.NotJson? ==> r == [Cross + "Google Service Account: Key file is not valid JSON"]
    ensures key.Unreadable? ==> r == [Cross + ReadErrorMessage(key.reason)]
  {
    match key
    case Parsed(doc) => KeyDocErrors(doc)
    case NotJson => [Cross + "Google Service Account: Key file is not valid JSON"]
    case Unreadable(reason) => [Cross + ReadErrorMessage(reason)]
  }

  /** `validate_google_service_account`: the key path must name a readable file whose
      contents pass, and the Google Cloud project id must be set; the project id is
      checked whatever the key file gave. */
  function ValidateServiceAccount(log: Log, fs: FileSystem, keyPath: Option<string>, read: string -> KeyFile,
                                  projectId: Option<string>): (r: Checked)
    ensures r.ok <==>
      && Truthy(keyPath) && fs.present(keyPath.value) && fs.isFile(keyPath.value) && fs.readable(keyPath.value)
      && KeyFileErrors(read(keyPath.value)) == []
      && !Missing(projectId)
    ensures r.log.warnings == log.warnings
    ensures r.ok ==> r.log == log
    ensures !r.ok ==> |r.log.errors| > |log.errors| && r.log.errors[..|log.errors|] == log.errors
  {
    var c := ValidateFilePath(log, fs, keyPath, "Google Service Account Key File", true);
    var afterKey := if c.ok then c.log.(errors := c.log.errors + KeyFileErrors(read(keyPath.value))) else c.log;
    var keyOk := c.ok && KeyFileErrors(read(keyPath.value)) == [];
    var p := ValidateString(afterKey, projectId, "Google Cloud Project ID", true);
    Checked(keyOk && p.ok, p.log)
  }

  /** `os.path.dirname`: everything up to the last `/`, with trailing slashes dropped
      unless that leaves nothing but slashes. */
  function DirName(p: string): (r: string)
    ensures |r| <= |p| && r == p[..|r|]
    ensures '/' !in p ==> r == ""
  {
    var i := LastSlash(p);
    if i < 0 then ""
    else
      var head := p[..i + 1];
      if forall k :: 0 <= k < |head| ==> head[k] == '/' then head else TrimSlashes(head)
  }

  /** Index of the last `/`, or -1. */
  function LastSlash(p: string): (r: int)
    ensures -1 <= r < |p|
    ensures r >= 0 ==> p[r] == '/' && forall k :: r < k < |p| ==> p[k] != '/'
    ensures r < 0 ==> '/' !in p
  {
    if |p| == 0 then -1
    else if p[|p| - 1] == '/' then |p| - 1
    else
      var r := LastSlash(p[..|p| - 1]);
      assert forall k :: r < k < |p| - 1 ==> p[k] == p[..|p| - 1][k];
      r
  }

  /** `rstrip('/')`. */
  function TrimSlashes(s: string): (r: string)
    ensures |r| <= |s| && r == s[..|r|]
    ensures |r| > 0 ==> r[|r| - 1] != '/'
    ensures forall k :: |r| <= k < |s| ==> s[k] == '/'
  {
    if |s| == 0 || s[|s| - 1] != '/' then s
    else TrimSlashes(s[..|s| - 1])
  }

  /** The database file path of a SQLite URL. */
  function SqlitePath(url: string): string {
    ReplaceAll(ReplaceAll(url, "sqlite:///", ""), "sqlite://", "")
  }

  /** The directory the database file goes in, when the URL names one: a SQLite
      URL that is not in memory. */
  function DatabaseDir(url: string): (r: Option<string>)
    ensures r.Some? ==> r.value != ""
    ensures |url| < 7 || url[..7] != "sqlite:" ==> r.None?
  {
    if |url| >= 7 && url[..7] == "sqlite:" then
      var path := SqlitePath(url);
      if path == "" || path == ":memory:" then None
      else
        var dir := DirName(path);
        Some(if dir != "" then dir else ".")
    else None
  }

  /** `validate_database_config`: the URL must be set; for a SQLite file its
      directory must exist or be created (`makeDirs` answers the failure message
      when it cannot). */
  function ValidateDatabase(log: Log, fs: FileSystem, url: Option<string>, makeDirs: string -> Option<string>): (r: Checked)
    ensures r.ok <==>
      && !Missing(url)
      && (DatabaseDir(url.value).Some? && !fs.present(DatabaseDir(url.value).value) ==> makeDirs(DatabaseDir(url.value).value).None?)
    ensures r.log.warnings == log.warnings
    ensures r.ok ==> r.log == log
    ensures !r.ok ==> |r.log.errors| == |log.errors| + 1 && r.log.errors[..|log.errors|] == log.errors
  {
    var c := ValidateString(log, url, "Database URL", true);
    if !c.ok then c
    else
      match DatabaseDir(url.value)
      case None => c
      case Some(dir) =>
        if fs.present(dir) then c
        else
          match makeDirs(dir)
          case None => c
          case Some(e) => Checked(false, AddError(c.log, "Database: Cannot create directory " + dir + ": " + e))
  }

  /** The settings attributes the check reads. */
  datatype Attributes = Attributes(
    databaseUrl: Option<string>,
    secretKey: Option<string>,
    serviceAccountKey: Option<string>,
    googleCloudProjectId: Option<string>,
    notebooklmProjectId: Option<string>,
    dropboxAppKey: Option<string>,
    onedriveClientId: Option<string>)

  const NoIntegrations := "No optional integrations configured (Dropbox, OneDrive, NotebookLM)"

  /** Whether any integration is configured. */
  predicate HasIntegration(a: Attributes) {
    Truthy(a.dropboxAppKey) || Truthy(a.onedriveClientId) || Truthy(a.notebooklmProjectId)
  }

  /** `validate_all`: starting from empty lists, the database, the secret, the
      service account and the NotebookLM project are checked in turn, then a warning
      is added when no integration is configured; the whole passes exactly when no
      error was recorded. */
  function ValidateAll(a: Attributes, fs: FileSystem, read: string -> KeyFile, makeDirs: string -> Option<string>): (r: Checked)
    ensures r.ok <==> r.log.errors == []
    ensures r.ok <==>
      && ValidateDatabase(Log([], []), fs, a.databaseUrl, makeDirs).ok
      && SecureKey(a.secretKey)
      && ValidateServiceAccount(Log([], []), fs, a.serviceAccountKey, read, a.googleCloudProjectId).ok
    ensures !HasIntegration(a) <==> |r.log.warnings| > 0 && r.log.warnings[|r.log.warnings| - 1] == Caution + NoIntegrations
  {
    var db := ValidateDatabase(Log([], []), fs, a.databaseUrl, makeDirs);
    var secret := ValidateSecretKey(db.log, a.secretKey);
    var google := ValidateServiceAccount(secret.log, fs, a.serviceAccountKey, read, a.googleCloudProjectId);
    var notebook := ValidateString(google.log, a.notebooklmProjectId, "NotebookLM Project ID", false);
    var log := if HasIntegration(a) then notebook.log else AddWarning(notebook.log, NoIntegrations);
    Checked(log.errors == [], log)
  }
}
