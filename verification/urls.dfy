/** The part of Python's `urllib.parse.urlsplit` (3.12.0) that the drive classifier
    reads: the scheme and the network location, with the three checks that can make it
    raise on a network location. */
module Urls {
  import opened Wrappers
  import opened Text

  /** WHATWG "C0 control or space": stripped from the front of a URL. */
  predicate IsC0OrSpace(c: char) {
    c <= ' '
  }

  /** Tab, carriage return and line feed are deleted anywhere in a URL. */
  predicate IsUnsafe(c: char) {
    c == '\t' || c == '\r' || c == '\n'
  }

  predicate IsAsciiAlpha(c: char) {
    'a' <= c <= 'z' || 'A' <= c <= 'Z'
  }

  /** `scheme_chars`: ASCII letters, digits, `+`, `-` and `.`. */
  predicate IsSchemeChar(c: char) {
    IsAsciiAlpha(c) || '0' <= c <= '9' || c == '+' || c == '-' || c == '.'
  }

  function StripLeading(s: string): (r: string)
    ensures |r| <= |s| && r == s[|s| - |r|..]
    ensures |r| > 0 ==> !IsC0OrSpace(r[0])
  {
    if |s| > 0 && IsC0OrSpace(s[0]) then StripLeading(s[1..]) else s
  }

  function RemoveUnsafe(s: string): (r: string)
    ensures forall i :: 0 <= i < |r| ==> !IsUnsafe(r[i])
    ensures (forall i :: 0 <= i < |s| ==> !IsUnsafe(s[i])) ==> r == s
  {
    if |s| == 0 then ""
    else (if IsUnsafe(s[0]) then "" else [s[0]]) + RemoveUnsafe(s[1..])
  }

  /** The URL after the clean-up `urlsplit` performs first. */
  function Clean(url: string): string {
    RemoveUnsafe(StripLeading(url))
  }

  /** Where the scheme ends (the first `:`), when the text before it is a scheme. */
  predicate HasScheme(u: string) {
    var i := IndexOf(u, ':');
    0 < i < |u| && IsAsciiAlpha(u[0]) && forall k :: 0 <= k < i ==> IsSchemeChar(u[k])
  }

  const NetlocEnd: set<char> := {'/', '?', '#'}

  datatype SplitUrl = SplitUrl(scheme: string, netloc: string)

  const InvalidIPv6 := "Invalid IPv6 URL"

  /** Unbalanced square brackets in a network location. */
  predicate BadBrackets(netloc: string) {
    ('[' in netloc && ']' !in netloc) || (']' in netloc && '[' !in netloc)
  }

  /** The network location of what follows the scheme: text between a leading `//`
      and the next `/`, `?` or `#`; empty when there is no leading `//`. */
  function Netloc(rest: string): (r: string)
    ensures forall i :: 0 <= i < |r| ==> r[i] !in NetlocEnd
  {
    if |rest| >= 2 && rest[..2] == "//" then
      rest[2..][..IndexOfAny(rest[2..], NetlocEnd)]
    else ""
  }

  /** The scheme `urlsplit` recognises, lowered; empty when there is none. */
  function SchemeOf(u: string): string {
    if HasScheme(u) then Lower(u[..IndexOf(u, ':')]) else ""
  }

  /** What follows the scheme and its colon. */
  function AfterScheme(u: string): string {
    if HasScheme(u) then u[IndexOf(u, ':') + 1..] else u
  }

  /** The scheme and network location `urlsplit` finds, before any check. */
  function Parts(url: string): (r: SplitUrl)
    ensures forall i :: 0 <= i < |r.netloc| ==> r.netloc[i] !in NetlocEnd
  {
    var u := Clean(url);
    SplitUrl(SchemeOf(u), Netloc(AfterScheme(u)))
  }

  /** The two services of the Unicode database the checks consult: NFKC normalisation
      (`unicodedata.normalize('NFKC', _)`) and `str.isprintable` of one character. */
  datatype Unicode = Unicode(nfkc: string -> string, printable: char -> bool)

  /** `str.isascii()`. */
  predicate IsAscii(s: string) {
    forall k :: 0 <= k < |s| ==> s[k] < '\U{80}'
  }

  /** The `ValueError` `urlsplit` raises about a network location, if any: unbalanced
      brackets; then, with both brackets present, a bracketed host that is not an
      IPvFuture literal or an IPv6 address; then characters that NFKC normalisation
      turns into delimiters. An ASCII host without brackets passes all three. */
  function CheckNetloc(netloc: string, uc: Unicode): (r: Option<string>)
    ensures BadBrackets(netloc) ==> r == Some(InvalidIPv6)
    ensures IsAscii(netloc) && '[' !in netloc && ']' !in netloc ==> r.None?
    ensures !BadBrackets(netloc) && '[' !in netloc ==> r == NetlocError(netloc, uc)
  {
    if BadBrackets(netloc) then Some(InvalidIPv6)
    else if '[' in netloc && BracketedHostError(BracketedHost(netloc), uc).Some? then
      BracketedHostError(BracketedHost(netloc), uc)
    else NetlocError(netloc, uc)
  }

  /** `(urlparse(url).scheme, urlparse(url).netloc)`, or the `ValueError` it raises. */
  function Split(url: string, uc: Unicode): (r: Result<SplitUrl>)
    ensures r.Ok? <==> CheckNetloc(Parts(url).netloc, uc).None?
    ensures r.Ok? ==> r.value == Parts(url)
    ensures r.Err? ==> r.error == CheckNetloc(Parts(url).netloc, uc).value
  {
    match CheckNetloc(Parts(url).netloc, uc)
    case Some(e) => Err(e)
    case None => Ok(Parts(url))
  }

  // ---- The bracketed host ----

  /** `netloc.partition('[')[2].partition(']')[0]`. */
  function BracketedHost(netloc: string): (h: string)
    ensures '[' in netloc ==> |h| < |netloc|
  {
    var i := IndexOf(netloc, '[');
    if i == |netloc| then ""
    else
      var t := netloc[i + 1..];
      t[..IndexOf(t, ']')]
  }

  /** `_check_bracketed_host`: a host starting with `v` must be an IPvFuture literal;
      any other must be an IPv6 address (`ipaddress.ip_address` accepts it, and not
      as IPv4). */
  function BracketedHostError(h: string, uc: Unicode): (r: Option<string>)
    ensures |h| > 0 && h[0] == 'v' ==> (r.None? <==> IsIpvFuture(h))
    ensures (|h| == 0 || h[0] != 'v') ==> (r.None? <==> IsIPv6(h) && !IsIPv4(h))
  {
    if |h| > 0 && h[0] == 'v' then
      if IsIpvFuture(h) then None else Some("IPvFuture address is invalid")
    else if IsIPv4(h) then Some("An IPv4 address cannot be in brackets")
    else if IsIPv6(h) then None
    else Some(Repr(h, uc) + " does not appear to be an IPv4 or IPv6 address")
  }

  predicate IsDigit(c: char) {
    '0' <= c <= '9'
  }

  predicate IsHexDigit(c: char) {
    IsDigit(c) || 'a' <= c <= 'f' || 'A' <= c <= 'F'
  }

  /** The length of the longest run of hex digits starting `s`. */
  function HexRun(s: string): (n: nat)
    ensures n <= |s|
    ensures forall k :: 0 <= k < n ==> IsHexDigit(s[k])
    ensures n < |s| ==> !IsHexDigit(s[n])
  {
    if |s| == 0 || !IsHexDigit(s[0]) then 0 else 1 + HexRun(s[1..])
  }

  /** `re.match(r"\Av[a-fA-F0-9]+\..+\Z", h)`: `v`, hex digits, a dot, then at least
      one character other than a newline. Since a dot is not a hex digit, the digits
      are the whole run after the `v`. */
  predicate IsIpvFuture(h: string) {
    && |h| > 0 && h[0] == 'v'
    && var n := HexRun(h[1..]);
       && n > 0 && n + 2 < |h| && h[n + 1] == '.'
       && '\n' !in h[n + 2..]
  }

  /** `s.split(sep)`. */
  function SplitOn(s: string, sep: char): (r: seq<string>)
    ensures |r| > 0
    ensures forall k :: 0 <= k < |r| ==> sep !in r[k]
    ensures sep !in s ==> r == [s]
    decreases |s|
  {
    var i := IndexOf(s, sep);
    if i == |s| then
      assert s[..i] == s;
      [s]
    else [s[..i]] + SplitOn(s[i + 1..], sep)
  }

  /** The value of a run of decimal digits. */
  function DecimalValue(s: string): nat
    requires forall k :: 0 <= k < |s| ==> IsDigit(s[k])
  {
    if |s| == 0 then 0
    else
      assert IsDigit(s[|s| - 1]);
      10 * DecimalValue(s[..|s| - 1]) + (s[|s| - 1] as int - '0' as int)
  }

  /** `_parse_octet` accepts `o`: one to three ASCII digits, no leading zero, at most
      255. */
  predicate IsOctet(o: string) {
    && 0 < |o| <= 3
    && (forall k :: 0 <= k < |o| ==> IsDigit(o[k]))
    && (o == "0" || o[0] != '0')
    && DecimalValue(o) <= 255
  }

  /** `IPv4Address(s)` accepts `s`: no `/`, and four dot-separated octets. */
  predicate IsIPv4(s: string) {
    && '/' !in s
    && |s| > 0
    && var octets := SplitOn(s, '.');
       |octets| == 4 && forall k :: 0 <= k < 4 ==> IsOctet(octets[k])
  }

  /** Every character of a dotted quad outside its dots is a digit. */
  lemma DigitsOnlyInQuad(s: string)
    requires IsIPv4(s)
    ensures forall k :: 0 <= k < |s| ==> s[k] == '.' || IsDigit(s[k])
  {
    var octets := SplitOn(s, '.');
    forall k | 0 <= k < |s| ensures s[k] == '.' || IsDigit(s[k]) {
      if s[k] != '.' {
        var p, j := PieceOf(s, '.', k);
        assert IsOctet(octets[p]);
      }
    }
  }

  /** A host name in brackets, not starting with `v` or a digit and holding no `:`,
      is refused as neither an IPv4 nor an IPv6 address, quoted as it stands. */
  lemma BracketedName(name: string, uc: Unicode)
    requires |name| > 0 && name[0] != 'v' && !IsDigit(name[0]) && name[0] != '.'
    requires forall k :: 0 <= k < |name| ==>
      ' ' < name[k] < '\U{7f}' && name[k] !in {'\'', '"', '\\', ':', '[', ']', '%'}
    ensures CheckNetloc("[" + name + "]", uc) ==
      Some("'" + name + "'" + " does not appear to be an IPv4 or IPv6 address")
  {
    var h := "[" + name + "]";
    assert h[0] == '[' && h[|h| - 1] == ']';
    assert h[1..] == name + "]";
    IndexOfPrefix(name, "]", ']');
    assert BracketedHost(h) == name;
    if IsIPv4(name) {
      DigitsOnlyInQuad(name);
      assert false;
    }
    assert SplitOn(name, ':') == [name];
    assert name[..|name|] == name;
    assert !IsIPv6(name);
    ReprPlain(name, uc);
    assert !BadBrackets(h) && '[' in h;
    assert BracketedHostError(name, uc) == Some(Repr(name, uc) + " does not appear to be an IPv4 or IPv6 address");
  }

  /** Each character of `s` other than `sep` sits in some piece of `s.split(sep)`. */
  lemma {:induction false} PieceOf(s: string, sep: char, k: nat) returns (p: nat, j: nat)
    requires k < |s| && s[k] != sep
    ensures p < |SplitOn(s, sep)| && j < |SplitOn(s, sep)[p]| && SplitOn(s, sep)[p][j] == s[k]
    decreases |s|
  {
    var i := IndexOf(s, sep);
    if i == |s| {
      p, j := 0, k;
    } else if k < i {
      p, j := 0, k;
    } else {
      assert k > i;
      var p', j' := PieceOf(s[i + 1..], sep, k - i - 1);
      p, j := p' + 1, j';
    }
  }

  /** `_parse_hextet` accepts `h`: one to four hex digits (`int('', 16)` fails). */
  predicate IsHextet(h: string) {
    0 < |h| <= 4 && forall k :: 0 <= k < |h| ==> IsHexDigit(h[k])
  }

  /** The parts with an IPv4 tail (a last part holding a dot) replaced by the two
      hextets it stands for, or `None` when that tail is not an IPv4 address. Any two
      hextets do here: their values do not decide validity. */
  function WithIPv4Tail(parts: seq<string>): (r: Option<seq<string>>)
    requires |parts| > 0
    ensures r.Some? ==> |r.value| == (if '.' in parts[|parts| - 1] then |parts| + 1 else |parts|)
    ensures r.Some? ==> r.value[..|parts| - 1] == parts[..|parts| - 1]
  {
    var last := parts[|parts| - 1];
    if '.' !in last then Some(parts)
    else if IsIPv4(last) then Some(parts[..|parts| - 1] + ["0", "0"])
    else None
  }

  /** The positions from `from` on, short of the last, that hold an empty part, in
      increasing order: where `::` skips a run of zero hextets. */
  function EmptyInterior(parts: seq<string>, from: nat): (r: seq<nat>)
    ensures forall k :: 0 <= k < |r| ==> from <= r[k] < |parts| - 1 && parts[r[k]] == ""
    ensures forall i :: from <= i < |parts| - 1 && parts[i] == "" ==> i in r
    ensures forall a, b :: 0 <= a < b < |r| ==> r[a] < r[b]
    decreases |parts| - from
  {
    if from + 1 >= |parts| then []
    else (if parts[from] == "" then [from] else []) + EmptyInterior(parts, from + 1)
  }

  /** `IPv6Address._ip_int_from_string` accepts `a`: at least three colon-separated
      parts, at most nine once an IPv4 tail is expanded, at most one interior empty
      part. With one, empty end parts must sit next to it, fewer than eight hextets
      may surround it, and those must parse; without one, exactly eight hextets. */
  predicate IsIPv6Address(a: string) {
    && |a| > 0
    && var parts0 := SplitOn(a, ':');
    && |parts0| >= 3
    && WithIPv4Tail(parts0).Some?
    && var parts := WithIPv4Tail(parts0).value;
    && |parts| <= 9
    && var skips := EmptyInterior(parts, 1);
    && |skips| <= 1
    && if |skips| == 1 then
         var skip := skips[0];
         var hi := if parts[0] == "" then skip - 1 else skip;
         var lo := if parts[|parts| - 1] == "" then |parts| - skip - 2 else |parts| - skip - 1;
         && (parts[0] == "" ==> hi == 0)
         && (parts[|parts| - 1] == "" ==> lo == 0)
         && 8 - (hi + lo) >= 1
         && (forall k :: 0 <= k < hi ==> IsHextet(parts[k]))
         && (forall k :: |parts| - lo <= k < |parts| ==> IsHextet(parts[k]))
       else
         && |parts| == 8 && parts[0] != "" && parts[7] != ""
         && forall k :: 0 <= k < 8 ==> IsHextet(parts[k])
  }

  /** `IPv6Address(s)` accepts `s`: no `/`, and after the first `%` a non-empty scope
      with no further `%`. */
  predicate IsIPv6(s: string) {
    && '/' !in s
    && var i := IndexOf(s, '%');
       && (i < |s| ==> |s[i + 1..]| > 0 && '%' !in s[i + 1..])
       && IsIPv6Address(s[..i])
  }

  // ---- repr() of a string, for the error message ----

  /** `repr` quotes with `'` unless the string holds `'` and no `"`. */
  function ReprQuote(s: string): char {
    if '\'' in s && '"' !in s then '"' else '\''
  }

  function HexChar(d: nat): char
    requires d < 16
  {
    "0123456789abcdef"[d]
  }

  /** `n` as `width` lower-case hex digits (the low ones). */
  function Hex(n: nat, width: nat): (r: string)
    ensures |r| == width
  {
    if width == 0 then "" else Hex(n / 16, width - 1) + [HexChar(n % 16)]
  }

  /** One character inside the quotes. */
  function ReprChar(c: char, quote: char, uc: Unicode): string {
    if c == quote || c == '\\' then ['\\', c]
    else if c == '\t' then "\\t"
    else if c == '\n' then "\\n"
    else if c == '\r' then "\\r"
    else if c < ' ' || c == '\U{7f}' then "\\x" + Hex(c as nat, 2)
    else if c < '\U{7f}' || uc.printable(c) then [c]
    else if c as nat <= 0xff then "\\x" + Hex(c as nat, 2)
    else if c as nat <= 0xffff then "\\u" + Hex(c as nat, 4)
    else "\\U" + Hex(c as nat, 8)
  }

  function ReprBody(s: string, quote: char, uc: Unicode): string {
    if |s| == 0 then "" else ReprChar(s[0], quote, uc) + ReprBody(s[1..], quote, uc)
  }

  /** `repr(s)` of a `str`. */
  function Repr(s: string, uc: Unicode): string {
    var q := ReprQuote(s);
    [q] + ReprBody(s, q, uc) + [q]
  }

  /** Printable ASCII without quotes or backslashes is quoted as it stands. */
  lemma {:induction false} ReprPlain(s: string, uc: Unicode)
    requires forall k :: 0 <= k < |s| ==> ' ' <= s[k] < '\U{7f}' && s[k] != '\'' && s[k] != '"' && s[k] != '\\'
    ensures Repr(s, uc) == "'" + s + "'"
  {
    ReprBodyPlain(s, '\'', uc);
  }

  lemma {:induction false} ReprBodyPlain(s: string, q: char, uc: Unicode)
    requires q == '\'' || q == '"'
    requires forall k :: 0 <= k < |s| ==> ' ' <= s[k] < '\U{7f}' && s[k] != '\'' && s[k] != '"' && s[k] != '\\'
    ensures ReprBody(s, q, uc) == s
  {
    if |s| > 0 {
      ReprBodyPlain(s[1..], q, uc);
      assert s == [s[0]] + s[1..];
    }
  }

  /** An ASCII string's `repr` does not consult the Unicode database. */
  lemma {:induction false} ReprBodyAscii(s: string, q: char, uc: Unicode, uc': Unicode)
    requires IsAscii(s)
    ensures ReprBody(s, q, uc) == ReprBody(s, q, uc')
  {
    if |s| > 0 {
      ReprBodyAscii(s[1..], q, uc, uc');
    }
  }

  // ---- NFKC ----

  /** `s` with every character of `cs` removed. */
  function Without(s: string, cs: set<char>): (r: string)
    ensures forall k :: 0 <= k < |r| ==> r[k] !in cs
    ensures (forall k :: 0 <= k < |s| ==> s[k] !in cs) ==> r == s
  {
    if |s| == 0 then ""
    else (if s[0] in cs then "" else [s[0]]) + Without(s[1..], cs)
  }

  const Delimiters: set<char> := {'/', '?', '#', '@', ':'}

  /** `_checknetloc`: a non-ASCII network location whose NFKC form (with `@`, `:`,
      `#` and `?` removed first) differs and holds a delimiter is refused. */
  function NetlocError(netloc: string, uc: Unicode): (r: Option<string>)
    ensures IsAscii(netloc) ==> r.None?
    ensures r.Some? ==> r.value == "netloc '" + netloc + "' contains invalid characters under NFKC normalization"
    ensures r.Some? <==>
      var n := Without(netloc, {'@', ':', '#', '?'});
      !IsAscii(netloc) && uc.nfkc(n) != n && IndexOfAny(uc.nfkc(n), Delimiters) < |uc.nfkc(n)|
  {
    if netloc == "" || IsAscii(netloc) then None
    else
      var n := Without(netloc, {'@', ':', '#', '?'});
      var n2 := uc.nfkc(n);
      if n == n2 then None
      else if IndexOfAny(n2, Delimiters) < |n2| then
        Some("netloc '" + netloc + "' contains invalid characters under NFKC normalization")
      else None
  }

  /** An ASCII network location is judged without the Unicode database. */
  lemma AsciiNeedsNoDatabase(netloc: string, uc: Unicode, uc': Unicode)
    requires IsAscii(netloc)
    ensures CheckNetloc(netloc, uc) == CheckNetloc(netloc, uc')
  {
    if '[' in netloc && !BadBrackets(netloc) {
      var h := BracketedHost(netloc);
      assert IsAscii(h) by {
        var i := IndexOf(netloc, '[');
        var t := netloc[i + 1..];
        assert forall k :: 0 <= k < |h| ==> h[k] == netloc[i + 1 + k];
      }
      ReprBodyAscii(h, ReprQuote(h), uc, uc');
    }
  }

  // ---- Lowering a URL lowers its network location and nothing else ----

  lemma {:induction false} StripLeadingLower(s: string)
    ensures StripLeading(Lower(s)) == Lower(StripLeading(s))
  {
    if |s| > 0 {
      assert Lower(s)[1..] == Lower(s[1..]);
      if IsC0OrSpace(s[0]) {
        StripLeadingLower(s[1..]);
      }
    }
  }

  lemma {:induction false} RemoveUnsafeLower(s: string)
    ensures RemoveUnsafe(Lower(s)) == Lower(RemoveUnsafe(s))
  {
    if |s| > 0 {
      assert Lower(s)[1..] == Lower(s[1..]);
      RemoveUnsafeLower(s[1..]);
      LowerConcat(if IsUnsafe(s[0]) then "" else [s[0]], RemoveUnsafe(s[1..]));
    }
  }

  /** Lowering never creates or destroys a non-letter character. */
  lemma LowerCharKeeps(x: char, c: char)
    requires !IsAsciiAlpha(c)
    ensures LowerChar(x) == c <==> x == c
  {
  }

  lemma {:induction false} IndexOfLower(s: string, c: char)
    requires !IsAsciiAlpha(c)
    ensures IndexOf(Lower(s), c) == IndexOf(s, c)
  {
    if |s| > 0 {
      LowerCharKeeps(s[0], c);
      assert Lower(s)[1..] == Lower(s[1..]);
      IndexOfLower(s[1..], c);
    }
  }

  lemma {:induction false} IndexOfAnyLower(s: string)
    ensures IndexOfAny(Lower(s), NetlocEnd) == IndexOfAny(s, NetlocEnd)
  {
    if |s| > 0 {
      assert LowerChar(s[0]) in NetlocEnd <==> s[0] in NetlocEnd;
      assert Lower(s)[1..] == Lower(s[1..]);
      IndexOfAnyLower(s[1..]);
    }
  }

  lemma NetlocLower(rest: string)
    ensures Netloc(Lower(rest)) == Lower(Netloc(rest))
  {
    if |rest| >= 2 {
      assert Lower(rest)[..2] == Lower(rest[..2]);
      assert Lower(rest[..2]) == "//" <==> rest[..2] == "//";
      if rest[..2] == "//" {
        var t := rest[2..];
        assert Lower(rest)[2..] == Lower(t);
        IndexOfAnyLower(t);
        LowerSlice(t, 0, IndexOfAny(t, NetlocEnd));
      }
    }
  }

  lemma BracketsLower(netloc: string)
    ensures BadBrackets(Lower(netloc)) == BadBrackets(netloc)
  {
    forall x ensures x in Lower(netloc) <==> exists k :: 0 <= k < |netloc| && LowerChar(netloc[k]) == x {
    }
    LowerCharKeeps('[', '[');
    assert '[' in Lower(netloc) <==> '[' in netloc by {
      forall k | 0 <= k < |netloc| ensures LowerChar(netloc[k]) == '[' <==> netloc[k] == '[' {
        LowerCharKeeps(netloc[k], '[');
      }
    }
    assert ']' in Lower(netloc) <==> ']' in netloc by {
      forall k | 0 <= k < |netloc| ensures LowerChar(netloc[k]) == ']' <==> netloc[k] == ']' {
        LowerCharKeeps(netloc[k], ']');
      }
    }
  }

  lemma CleanLower(url: string)
    ensures Clean(Lower(url)) == Lower(Clean(url))
  {
    StripLeadingLower(url);
    RemoveUnsafeLower(StripLeading(url));
  }

  lemma SchemeLower(u: string)
    ensures HasScheme(Lower(u)) == HasScheme(u)
    ensures SchemeOf(Lower(u)) == SchemeOf(u)
    ensures AfterScheme(Lower(u)) == Lower(AfterScheme(u))
  {
    var i := IndexOf(u, ':');
    IndexOfLower(u, ':');
    if 0 < i < |u| {
      assert IsAsciiAlpha(Lower(u)[0]) == IsAsciiAlpha(u[0]);
      assert (forall k :: 0 <= k < i ==> IsSchemeChar(Lower(u)[k])) == (forall k :: 0 <= k < i ==> IsSchemeChar(u[k]));
    }
    if HasScheme(u) {
      LowerSlice(u, 0, i);
      LowerIdempotent(u[..i]);
      LowerSlice(u, i + 1, |u|);
    }
  }

  /** Lowering the URL leaves the scheme (which `urlsplit` lowers anyway) and lowers
      the network location. */
  lemma PartsLower(url: string)
    ensures Parts(Lower(url)) == SplitUrl(Parts(url).scheme, Lower(Parts(url).netloc))
  {
    var u := Clean(url);
    CleanLower(url);
    SchemeLower(u);
    NetlocLower(AfterScheme(u));
  }

  /** A URL `scheme://host<rest>` with no characters to clean splits into its lowered
      scheme and exactly `host`, unless the host fails a check, which then decides the
      error. */
  lemma SplitShape(scheme: string, host: string, rest: string, uc: Unicode)
    requires |scheme| > 0 && IsAsciiAlpha(scheme[0])
    requires forall k :: 0 <= k < |scheme| ==> IsSchemeChar(scheme[k])
    requires forall k :: 0 <= k < |host| ==> host[k] !in NetlocEnd && !IsUnsafe(host[k])
    requires |rest| == 0 || rest[0] in NetlocEnd
    requires forall k :: 0 <= k < |rest| ==> !IsUnsafe(rest[k])
    ensures Parts(scheme + "://" + host + rest) == SplitUrl(Lower(scheme), host)
    ensures Split(scheme + "://" + host + rest, uc) ==
      match CheckNetloc(host, uc)
      case Some(e) => Err(e)
      case None => Ok(SplitUrl(Lower(scheme), host))
  {
    PartsShape(scheme, host, rest);
  }

  lemma PartsShape(scheme: string, host: string, rest: string)
    requires |scheme| > 0 && IsAsciiAlpha(scheme[0])
    requires forall k :: 0 <= k < |scheme| ==> IsSchemeChar(scheme[k])
    requires forall k :: 0 <= k < |host| ==> host[k] !in NetlocEnd && !IsUnsafe(host[k])
    requires |rest| == 0 || rest[0] in NetlocEnd
    requires forall k :: 0 <= k < |rest| ==> !IsUnsafe(rest[k])
    ensures Parts(scheme + "://" + host + rest) == SplitUrl(Lower(scheme), host)
  {
    var url := scheme + "://" + host + rest;
    var tail := "//" + host + rest;
    ShapeConcat(scheme, host, rest);
    CleanShape(scheme, host, rest);
    SchemeShape(scheme, tail);
    NetlocShape(host, rest);
    assert Clean(url) == scheme + ":" + tail;
  }

  lemma ShapeConcat(scheme: string, host: string, rest: string)
    ensures scheme + "://" + host + rest == scheme + ":" + ("//" + host + rest)
  {
    var a, b := scheme + "://" + host + rest, scheme + ":" + ("//" + host + rest);
    assert |a| == |b|;
    forall k | 0 <= k < |a| ensures a[k] == b[k] {
      if k >= |scheme| + 3 + |host| {
        assert a[k] == rest[k - |scheme| - 3 - |host|];
      }
    }
  }

  lemma SchemeShape(scheme: string, tail: string)
    requires |scheme| > 0 && IsAsciiAlpha(scheme[0])
    requires forall k :: 0 <= k < |scheme| ==> IsSchemeChar(scheme[k])
    ensures HasScheme(scheme + ":" + tail)
    ensures SchemeOf(scheme + ":" + tail) == Lower(scheme)
    ensures AfterScheme(scheme + ":" + tail) == tail
  {
    var u := scheme + ":" + tail;
    assert u == scheme + (":" + tail);
    IndexOfPrefix(scheme, ":" + tail, ':');
    assert u[..|scheme|] == scheme;
    assert u[|scheme| + 1..] == tail;
  }

  lemma NetlocShape(host: string, rest: string)
    requires forall k :: 0 <= k < |host| ==> host[k] !in NetlocEnd
    requires |rest| == 0 || rest[0] in NetlocEnd
    ensures Netloc("//" + host + rest) == host
  {
    var after := "//" + host + rest;
    assert after[..2] == "//";
    assert after[2..] == host + rest;
    IndexOfAnyPrefix(host, rest, NetlocEnd);
    assert (host + rest)[..|host|] == host;
  }

  lemma CleanShape(scheme: string, host: string, rest: string)
    requires |scheme| > 0 && IsAsciiAlpha(scheme[0])
    requires forall k :: 0 <= k < |scheme| ==> IsSchemeChar(scheme[k])
    requires forall k :: 0 <= k < |host| ==> !IsUnsafe(host[k])
    requires forall k :: 0 <= k < |rest| ==> !IsUnsafe(rest[k])
    ensures Clean(scheme + "://" + host + rest) == scheme + "://" + host + rest
  {
    var url := scheme + "://" + host + rest;
    assert StripLeading(url) == url;
    forall k | 0 <= k < |url| ensures !IsUnsafe(url[k]) {
      if k < |scheme| {
        assert url[k] == scheme[k];
      } else if k < |scheme| + 3 {
      } else if k < |scheme| + 3 + |host| {
        assert url[k] == host[k - |scheme| - 3];
      } else {
        assert url[k] == rest[k - |scheme| - 3 - |host|];
      }
    }
  }
}
