/** Classification of a shared-folder URL by its host, and the structured URL check. */
module DriveDetector {
  import opened Wrappers
  import opened Text
  import opened Records
  import Urls

  const GooglePatterns: seq<string> := ["drive.google.com", "docs.google.com"]
  const OneDrivePatterns: seq<string> := ["onedrive.live.com", "onedrive.com", "1drv.ms", "sharepoint.com"]
  const DropboxPatterns: seq<string> := ["dropbox.com", "db.tt"]

  /** Some pattern is a substring of the host. */
  predicate MentionsAny(host: string, patterns: seq<string>) {
    exists k :: 0 <= k < |patterns| && Contains(host, patterns[k])
  }

  /** Whether some pattern occurs in the host, scanning the patterns in order. */
  function AnyIn(host: string, patterns: seq<string>): (r: bool)
    ensures r <==> MentionsAny(host, patterns)
  {
    if |patterns| == 0 then false
    else if Contains(host, patterns[0]) then true
    else
      assert MentionsAny(host, patterns) ==> MentionsAny(host, patterns[1..]) by {
        if MentionsAny(host, patterns) {
          var k :| 0 <= k < |patterns| && Contains(host, patterns[k]);
          assert patterns[1..][k - 1] == patterns[k];
        }
      }
      assert MentionsAny(host, patterns[1..]) ==> MentionsAny(host, patterns) by {
        if MentionsAny(host, patterns[1..]) {
          var k :| 0 <= k < |patterns[1..]| && Contains(host, patterns[1..][k]);
          assert patterns[k + 1] == patterns[1..][k];
        }
      }
      AnyIn(host, patterns[1..])
  }

  /** The provider of a (lowered) host, checking Google first, then OneDrive, then Dropbox. */
  function ClassifyHost(host: string): (r: Option<DriveType>)
    ensures r == Some(GOOGLE_DRIVE) <==> MentionsAny(host, GooglePatterns)
    ensures r == Some(ONEDRIVE) <==> !MentionsAny(host, GooglePatterns) && MentionsAny(host, OneDrivePatterns)
    ensures r == Some(DROPBOX) <==>
      !MentionsAny(host, GooglePatterns) && !MentionsAny(host, OneDrivePatterns) && MentionsAny(host, DropboxPatterns)
    ensures r.None? <==>
      !MentionsAny(host, GooglePatterns) && !MentionsAny(host, OneDrivePatterns) && !MentionsAny(host, DropboxPatterns)
  {
    if AnyIn(host, GooglePatterns) then Some(GOOGLE_DRIVE)
    else if AnyIn(host, OneDrivePatterns) then Some(ONEDRIVE)
    else if AnyIn(host, DropboxPatterns) then Some(DROPBOX)
    else None
  }

  /** The message of the `ValueError` for an unrecognised URL; it quotes the URL as given. */
  function UnrecognizedMessage(url: string): string {
    "Unable to detect drive type from URL: " + url
  }

  /** `detect_drive_type`: classify the host of the lowered URL. */
  function DetectDriveType(url: string, uc: Urls.Unicode): (r: Result<DriveType>)
    ensures r.Ok? <==> Urls.Split(Lower(url), uc).Ok? && ClassifyHost(Urls.Split(Lower(url), uc).value.netloc).Some?
    ensures r.Ok? ==> Some(r.value) == ClassifyHost(Urls.Split(Lower(url), uc).value.netloc)
    ensures r.Err? && Urls.Split(Lower(url), uc).Ok? ==> r.error == UnrecognizedMessage(url)
    ensures Urls.Split(Lower(url), uc).Err? ==> r == Err(Urls.Split(Lower(url), uc).error)
  {
    match Urls.Split(Lower(url), uc)
    case Err(e) => Err(e)
    case Ok(parts) =>
      match ClassifyHost(parts.netloc)
      case Some(d) => Ok(d)
      case None => Err(UnrecognizedMessage(url))
  }

  /** Two URLs that differ only in letter case classify alike. */
  lemma CaseInsensitive(u1: string, u2: string, uc: Urls.Unicode)
    requires Lower(u1) == Lower(u2)
    ensures DetectDriveType(u1, uc).Ok? == DetectDriveType(u2, uc).Ok?
    ensures DetectDriveType(u1, uc).Ok? ==> DetectDriveType(u1, uc).value == DetectDriveType(u2, uc).value
  {
  }

  /** A URL `scheme://host<rest>` is decided by its lowered host alone: the checks
      `urlsplit` makes on it, then the classification; a known domain in the path or
      query does not count. */
  lemma HostDecides(scheme: string, host: string, rest: string, uc: Urls.Unicode)
    requires |scheme| > 0 && Urls.IsAsciiAlpha(scheme[0])
    requires forall k :: 0 <= k < |scheme| ==> Urls.IsSchemeChar(scheme[k])
    requires forall k :: 0 <= k < |host| ==> host[k] !in Urls.NetlocEnd && !Urls.IsUnsafe(host[k])
    requires |rest| == 0 || rest[0] in Urls.NetlocEnd
    requires forall k :: 0 <= k < |rest| ==> !Urls.IsUnsafe(rest[k])
    ensures var url := scheme + "://" + host + rest;
      DetectDriveType(url, uc) ==
        match Urls.CheckNetloc(Lower(host), uc)
        case Some(e) => Err(e)
        case None =>
          match ClassifyHost(Lower(host))
          case Some(d) => Ok(d)
          case None => Err(UnrecognizedMessage(url))
  {
    var url := scheme + "://" + host + rest;
    Urls.SplitShape(scheme, host, rest, uc);
    Urls.PartsLower(url);
  }

  /** The record `validate_drive_url` returns. */
  datatype Validation = Validation(valid: bool, driveType: Option<DriveType>, accessible: bool, errorMessage: Option<string>)

  const InvalidFormat := "Invalid URL format"

  function Invalid(message: string): Validation {
    Validation(false, None, false, Some(message))
  }

  /** `validate_drive_url`: classification first, then the scheme/host check on the URL
      as given; accessibility is not probed. */
  function ValidateDriveUrl(url: string, uc: Urls.Unicode): Validation {
    match DetectDriveType(url, uc)
    case Err(e) => Invalid(e)
    case Ok(d) =>
      match Urls.Split(url, uc)
      case Err(e) => Invalid(e)
      case Ok(parts) =>
        if parts.scheme == "" || parts.netloc == "" then Invalid(InvalidFormat)
        else Validation(true, Some(d), true, None)
  }

  lemma ContainsNonEmpty(s: string, pat: string)
    requires |pat| > 0 && Contains(s, pat)
    ensures |s| > 0
  {
    var i :| OccursAt(s, pat, i);
  }

  lemma MentionsNonEmpty(host: string, patterns: seq<string>)
    requires forall k :: 0 <= k < |patterns| ==> |patterns[k]| > 0
    requires MentionsAny(host, patterns)
    ensures |host| > 0
  {
    var k :| 0 <= k < |patterns| && Contains(host, patterns[k]);
    ContainsNonEmpty(host, patterns[k]);
  }

  /** Every recognised host is non-empty. */
  lemma ClassifiedNonEmpty(host: string)
    requires ClassifyHost(host).Some?
    ensures |host| > 0
  {
    if MentionsAny(host, GooglePatterns) {
      MentionsNonEmpty(host, GooglePatterns);
    } else if MentionsAny(host, OneDrivePatterns) {
      MentionsNonEmpty(host, OneDrivePatterns);
    } else {
      MentionsNonEmpty(host, DropboxPatterns);
    }
  }

  /** A URL is valid exactly when it classifies, splits as given, and has a scheme: a
      classified URL always has a host, so the format error means a scheme-less
      `//host/...` URL. The second split sees the host's letter case, so a bracketed
      host can pass the first and fail the second. A valid result carries the
      classification; an invalid one carries the reason and nothing else. */
  lemma ValidationSpec(url: string, uc: Urls.Unicode)
    ensures var v := ValidateDriveUrl(url, uc);
      && (v.valid <==> DetectDriveType(url, uc).Ok? && Urls.Split(url, uc).Ok? && Urls.Split(url, uc).value.scheme != "")
      && (v.valid ==> v.driveType == Some(DetectDriveType(url, uc).value) && v.accessible && v.errorMessage.None?)
      && (!v.valid ==> v.driveType.None? && !v.accessible && v.errorMessage.Some?)
      && (DetectDriveType(url, uc).Err? ==> v.errorMessage == Some(DetectDriveType(url, uc).error))
      && (DetectDriveType(url, uc).Ok? && Urls.Split(url, uc).Err? ==> v.errorMessage == Some(Urls.Split(url, uc).error))
      && (DetectDriveType(url, uc).Ok? && Urls.Split(url, uc).Ok? && !v.valid ==> v.errorMessage == Some(InvalidFormat))
  {
    Urls.PartsLower(url);
    if DetectDriveType(url, uc).Ok? {
      ClassifiedNonEmpty(Urls.Split(Lower(url), uc).value.netloc);
    }
  }

  /** A pattern with a character the host lacks does not occur in it. */
  lemma MissingChar(host: string, pat: string, c: char)
    requires c in pat && c !in host
    ensures !Contains(host, pat)
  {
  }

  /** The conditions of `HostDecides` for a concrete `https` URL. */
  lemma HttpsShape(host: string, rest: string, uc: Urls.Unicode)
    requires forall k :: 0 <= k < |host| ==> host[k] !in Urls.NetlocEnd && !Urls.IsUnsafe(host[k])
    requires |rest| == 0 || rest[0] in Urls.NetlocEnd
    requires forall k :: 0 <= k < |rest| ==> !Urls.IsUnsafe(rest[k])
    ensures var url := "https://" + host + rest;
      DetectDriveType(url, uc) ==
        match Urls.CheckNetloc(Lower(host), uc)
        case Some(e) => Err(e)
        case None =>
          match ClassifyHost(Lower(host))
          case Some(d) => Ok(d)
          case None => Err(UnrecognizedMessage(url))
  {
    assert forall k :: 0 <= k < |"https"| ==> Urls.IsSchemeChar("https"[k]);
    assert "https://" + host + rest == "https" + "://" + host + rest;
    HostDecides("https", host, rest, uc);
  }

  /** A host naming `drive.google.com` is a Google Drive host. */
  lemma GoogleHost(h: string)
    requires |h| >= 16 && h[..16] == "drive.google.com"
    ensures ClassifyHost(h) == Some(GOOGLE_DRIVE)
  {
    assert OccursAt(h, GooglePatterns[0], 0);
  }

  /** A host lacking the letters `r`, `s`, `b` and the digit `1` matches no pattern. */
  lemma UnknownHost(h: string)
    requires 'r' !in h && 's' !in h && '1' !in h && 'b' !in h
    ensures ClassifyHost(h).None?
  {
    forall k | 0 <= k < |GooglePatterns| ensures !Contains(h, GooglePatterns[k]) {
      MissingChar(h, GooglePatterns[k], if k == 0 then 'r' else 's');
    }
    forall k | 0 <= k < |OneDrivePatterns| ensures !Contains(h, OneDrivePatterns[k]) {
      MissingChar(h, OneDrivePatterns[k], if k == 2 then '1' else if k == 3 then 's' else 'r');
    }
    forall k | 0 <= k < |DropboxPatterns| ensures !Contains(h, DropboxPatterns[k]) {
      MissingChar(h, DropboxPatterns[k], 'b');
    }
  }

  /** Lower-case letters, digits, `-` and `.`: the characters of a plain host name. */
  predicate IsPlainHostChar(c: char) {
    'a' <= c <= 'z' || '0' <= c <= '9' || c == '-' || c == '.'
  }

  /** A plain host passes the shape conditions of `HostDecides`, needs no check, and
      is its own lower case. */
  lemma PlainHost(h: string, uc: Urls.Unicode)
    requires forall k :: 0 <= k < |h| ==> IsPlainHostChar(h[k])
    ensures forall k :: 0 <= k < |h| ==> h[k] !in Urls.NetlocEnd && !Urls.IsUnsafe(h[k])
    ensures Lower(h) == h && Urls.CheckNetloc(h, uc).None?
  {
  }

  /** A Google Drive folder link is recognised, whatever the Unicode database says. */
  lemma GoogleExample(host: string, path: string, uc: Urls.Unicode)
    requires host == "drive.google.com" && path == "/drive/folders/XYZ123"
    ensures DetectDriveType("https://" + host + path, uc) == Ok(GOOGLE_DRIVE)
  {
    PlainHost(host, uc);
    FolderPath(path);
    HttpsShape(host, path, uc);
    GoogleHost(host);
  }

  lemma FolderPath(path: string)
    requires path == "/drive/folders/XYZ123"
    ensures path[0] in Urls.NetlocEnd && forall k :: 0 <= k < |path| ==> !Urls.IsUnsafe(path[k])
  {
  }

  /** A link on an unknown host is refused, quoting the URL. */
  lemma UnknownExample(host: string, path: string, uc: Urls.Unicode)
    requires host == "unknown-cloud.example.com" && path == "/folder"
    ensures DetectDriveType("https://" + host + path, uc) == Err("Unable to detect drive type from URL: " + ("https://" + host + path))
  {
    UnknownLetters(host);
    UnknownPlain(host, path, uc);
  }

  /** `https://host<path>` for a plain host with none of the letters patterns need. */
  lemma UnknownPlain(host: string, path: string, uc: Urls.Unicode)
    requires forall k :: 0 <= k < |host| ==> IsPlainHostChar(host[k])
    requires 'r' !in host && 's' !in host && '1' !in host && 'b' !in host
    requires path == "/folder"
    ensures DetectDriveType("https://" + host + path, uc) == Err(UnrecognizedMessage("https://" + host + path))
  {
    PlainHost(host, uc);
    HttpsShape(host, path, uc);
    UnknownHost(host);
  }

  lemma UnknownLetters(h: string)
    requires h == "unknown-cloud.example.com"
    ensures forall k :: 0 <= k < |h| ==> IsPlainHostChar(h[k])
    ensures 'r' !in h && 's' !in h && '1' !in h && 'b' !in h
  {
  }

  /** A host name in brackets is neither an IPvFuture literal nor an IP address, so
      `urlsplit` refuses it, quoting it, before any classification. */
  lemma BracketedNameRefused(name: string, uc: Urls.Unicode)
    requires name == "drive.google.com"
    ensures DetectDriveType("https://[" + name + "]/x", uc) == Err("'" + name + "'" + " does not appear to be an IPv4 or IPv6 address")
  {
    assert forall k :: 0 <= k < |name| ==> IsPlainHostChar(name[k]);
    assert name[0] == 'd';
    BracketedPlain(name, uc);
  }

  lemma PathX()
    ensures "/x"[0] in Urls.NetlocEnd && forall k :: 0 <= k < |"/x"| ==> !Urls.IsUnsafe("/x"[k])
  {
  }

  /** `https://[name]/x` for a plain name not starting with `v` or a digit. */
  lemma BracketedPlain(name: string, uc: Urls.Unicode)
    requires |name| > 0 && name[0] != 'v' && 'a' <= name[0] <= 'z'
    requires forall k :: 0 <= k < |name| ==> IsPlainHostChar(name[k])
    ensures DetectDriveType("https://[" + name + "]/x", uc) == Err("'" + name + "'" + " does not appear to be an IPv4 or IPv6 address")
  {
    var h := "[" + name + "]";
    assert "https://[" + name + "]/x" == "https://" + h + "/x";
    PlainHost(name, uc);
    assert Lower(h) == h by {
      LowerConcat("[", name);
      LowerConcat("[" + name, "]");
    }
    assert forall k :: 0 <= k < |h| ==> h[k] !in Urls.NetlocEnd && !Urls.IsUnsafe(h[k]) by {
      forall k | 0 <= k < |h| ensures h[k] !in Urls.NetlocEnd && !Urls.IsUnsafe(h[k]) {
        if 0 < k < |h| - 1 {
          assert h[k] == name[k - 1];
        }
      }
    }
    Urls.BracketedName(name, uc);
    PathX();
    HttpsShape(h, "/x", uc);
  }
}
