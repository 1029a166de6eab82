/**
  The HTTP front of the border router: how a registered handler's result is
  framed as a response, how the default resource serves static files from the
  web root, and which handler each route is registered under.

  A response is modelled as the text written to the response stream. A reader
  for the framing (`ReadResponse`) is the independent partner of the writers:
  every response the server writes reads back as a frame whose Content-Length
  is the length of the body that follows. Characters stand for octets.
 */
module WebServer {
  import opened Wrappers
  import opened CText

  const SuccessStatus: string := "HTTP/1.1 200 OK\r\n"
  const FailureStatus: string := "HTTP/1.1 400 Bad Request\r\n"
  const LengthHeader: string := "Content-Length: "
  const CssTypeHeader: string := "\r\nContent-Type: text/css"
  const HeaderEnd: string := "\r\n\r\n"

  // ---------------------------------------------------------------------------
  // Decimal numbers, as `operator<<` writes a length
  // ---------------------------------------------------------------------------

  predicate IsDigit(c: char) {
    '0' <= c <= '9'
  }

  predicate AllDigits(s: string) {
    forall i :: 0 <= i < |s| ==> IsDigit(s[i])
  }

  function DigitChar(d: nat): (c: char)
    requires d < 10
    ensures IsDigit(c)
  {
    ('0' as int + d) as char
  }

  function DigitValue(c: char): (d: nat)
    requires IsDigit(c)
    ensures d < 10
  {
    c as int - '0' as int
  }

  /** A length written in decimal: most significant digit first, no sign, no padding. */
  function Decimal(n: nat): (r: string)
    ensures |r| > 0 && AllDigits(r)
    ensures |r| > 1 ==> r[0] != '0'
  {
    if n < 10 then [DigitChar(n)] else Decimal(n / 10) + [DigitChar(n % 10)]
  }

  /** The number a run of decimal digits denotes. */
  function DecimalValue(s: string): nat
    requires AllDigits(s)
  {
    if |s| == 0 then 0 else DecimalValue(s[..|s| - 1]) * 10 + DigitValue(s[|s| - 1])
  }

  /** Reading a written number gives it back. */
  lemma {:induction false} DecimalRoundTrip(n: nat)
    ensures DecimalValue(Decimal(n)) == n
  {
    if n >= 10 {
      var r := Decimal(n);
      assert r[..|r| - 1] == Decimal(n / 10);
      DecimalRoundTrip(n / 10);
    }
  }

  /** The run of digits at the front of `s`. */
  function LeadingDigits(s: string): (r: string)
    ensures r <= s && AllDigits(r)
    ensures |r| < |s| ==> !IsDigit(s[|r|])
  {
    if |s| == 0 || !IsDigit(s[0]) then [] else [s[0]] + LeadingDigits(s[1..])
  }

  /** A digit run followed by a non-digit is read whole, and no further. */
  lemma {:induction false} LeadingDigitsOf(d: string, rest: string)
    requires AllDigits(d)
    requires |rest| > 0 && !IsDigit(rest[0])
    ensures LeadingDigits(d + rest) == d
    decreases |d|
  {
    if |d| == 0 {
      assert d + rest == rest;
    } else {
      assert (d + rest)[0] == d[0];
      assert (d + rest)[1..] == d[1..] + rest;
      LeadingDigitsOf(d[1..], rest);
      assert [d[0]] + d[1..] == d;
    }
  }

  // ---------------------------------------------------------------------------
  // Framing, and the reader for it
  // ---------------------------------------------------------------------------

  /** A response as written: status line, Content-Length, an optional extra header, a blank line, body. */
  function Framed(status: string, length: nat, style: string, body: string): string {
    status + (LengthHeader + (Decimal(length) + (style + (HeaderEnd + body))))
  }

  /** What a client reads off a response: status code, declared length, whether the CSS type header is
      present, and everything after the blank line. */
  datatype Frame = Frame(status: nat, contentLength: nat, css: bool, body: string)

  function StatusLine(s: string): Option<(nat, string)> {
    if SuccessStatus <= s then Some((200, s[|SuccessStatus|..]))
    else if FailureStatus <= s then Some((400, s[|FailureStatus|..]))
    else None
  }

  /** Reads a response's head; None when it is not framed the way this server frames responses. */
  function ReadResponse(s: string): Option<Frame> {
    match StatusLine(s)
    case None => None
    case Some((code, s1)) => ReadLength(code, s1)
  }

  function ReadLength(code: nat, s1: string): Option<Frame> {
    if LengthHeader <= s1 then ReadNumber(code, s1[|LengthHeader|..]) else None
  }

  function ReadNumber(code: nat, s2: string): Option<Frame> {
    var d := LeadingDigits(s2);
    if |d| == 0 then None else ReadStyle(code, DecimalValue(d), s2[|d|..])
  }

  function ReadStyle(code: nat, length: nat, s3: string): Option<Frame> {
    var css := CssTypeHeader <= s3;
    var s4 := if css then s3[|CssTypeHeader|..] else s3;
    if HeaderEnd <= s4 then Some(Frame(code, length, css, s4[|HeaderEnd|..])) else None
  }

  lemma PrefixThen(a: string, rest: string)
    ensures a <= a + rest
    ensures (a + rest)[|a|..] == rest
  {
  }

  lemma StatusLines(rest: string)
    ensures StatusLine(SuccessStatus + rest) == Some((200, rest))
    ensures StatusLine(FailureStatus + rest) == Some((400, rest))
  {
    PrefixThen(SuccessStatus, rest);
    PrefixThen(FailureStatus, rest);
    assert (FailureStatus + rest)[9] == '4';
  }

  /** After the length: the CSS header is recognised exactly when it was written. */
  lemma ReadStyleWritten(code: nat, length: nat, css: bool, body: string)
    ensures ReadStyle(code, length, (if css then CssTypeHeader else "") + (HeaderEnd + body))
         == Some(Frame(code, length, css, body))
  {
    var e := HeaderEnd + body;
    PrefixThen(HeaderEnd, body);
    if css {
      PrefixThen(CssTypeHeader, e);
    } else {
      assert "" + e == e;
      assert e[2] == '\r';
    }
  }

  lemma ReadNumberWritten(code: nat, length: nat, css: bool, body: string)
    ensures ReadNumber(code, Decimal(length) + ((if css then CssTypeHeader else "") + (HeaderEnd + body)))
         == Some(Frame(code, length, css, body))
  {
    var s3 := (if css then CssTypeHeader else "") + (HeaderEnd + body);
    assert s3[0] == '\r';
    LeadingDigitsOf(Decimal(length), s3);
    PrefixThen(Decimal(length), s3);
    DecimalRoundTrip(length);
    ReadStyleWritten(code, length, css, body);
  }

  /** Every frame the server writes reads back with its own length, style and body. */
  lemma ReadFramed(status: string, code: nat, length: nat, css: bool, body: string)
    requires (status == SuccessStatus && code == 200) || (status == FailureStatus && code == 400)
    ensures ReadResponse(Framed(status, length, if css then CssTypeHeader else "", body))
         == Some(Frame(code, length, css, body))
  {
    var s2 := Decimal(length) + ((if css then CssTypeHeader else "") + (HeaderEnd + body));
    StatusLines(LengthHeader + s2);
    PrefixThen(LengthHeader, s2);
    ReadNumberWritten(code, length, css, body);
  }

  // ---------------------------------------------------------------------------
  // Registered handlers
  // ---------------------------------------------------------------------------

  /** How a handler ends: it returns the response text, or it throws with this message. */
  datatype Outcome = Returned(text: string) | Threw(what: string)

  /** The lambda registered for a route. A NULL callback (None) leaves the body empty; a thrown
      exception answers 400 with the message `what()` points at, and its `strlen` as the length. */
  function HandleHttpRequest(callback: Option<string -> Outcome>, content: string): string {
    if callback.None? then Framed(SuccessStatus, 0, "", "")
    else
      match callback.value(content)
      case Returned(text) => Framed(SuccessStatus, |text|, "", text)
      case Threw(what) => Framed(FailureStatus, |CStr(what)|, "", CStr(what))
  }

  /** A handler's response always reads back as a frame whose Content-Length is the body's length: 200
      with the handler's text (empty for a NULL callback), or 400 with the exception message. */
  lemma HandlerResponseFrame(callback: Option<string -> Outcome>, content: string)
    ensures var f := ReadResponse(HandleHttpRequest(callback, content));
            && f.Some? && f.value.contentLength == |f.value.body| && !f.value.css
            && (callback.None? ==> f.value == Frame(200, 0, false, ""))
            && (callback.Some? && callback.value(content).Returned? ==>
                  f.value == Frame(200, |callback.value(content).text|, false, callback.value(content).text))
            && (callback.Some? && callback.value(content).Threw? ==>
                  f.value == Frame(400, |CStr(callback.value(content).what)|, false, CStr(callback.value(content).what)))
  {
    if callback.None? {
      ReadFramed(SuccessStatus, 200, 0, false, "");
    } else {
      match callback.value(content)
      case Returned(text) => ReadFramed(SuccessStatus, 200, |text|, false, text);
      case Threw(what) => ReadFramed(FailureStatus, 400, |CStr(what)|, false, CStr(what));
    }
  }

  // ---------------------------------------------------------------------------
  // The default resource: static files under the web root
  // ---------------------------------------------------------------------------

  /** A canonical path, as its sequence of components. */
  type Path = seq<string>

  /** What the default resource asks of the file system. `root` is the canonical web root, or the
      message canonicalisation threw; `resolve` canonicalises the root joined with a request path;
      `isRegularFile` means "exists and is a regular file"; `read` is the file's contents when the
      stream opens. */
  datatype FileSystem = FileSystem(
    root: Result<Path, string>,
    resolve: (Path, string) -> Result<Path, string>,
    isDirectory: Path -> bool,
    isRegularFile: Path -> bool,
    read: Path -> Option<string>)

  /** The containment test as the server writes it: the root is not longer than the path, and the
      root's components equal the path's first components. */
  predicate WithinRoot(root: Path, path: Path) {
    !(|root| > |path| || !(forall i :: 0 <= i < |root| ==> root[i] == path[i]))
  }

  /** The test accepts exactly the paths that have the root as a prefix. */
  lemma WithinRootIsPrefix(root: Path, path: Path)
    ensures WithinRoot(root, path) <==> root <= path
  {
    if root <= path {
      assert forall i :: 0 <= i < |root| ==> root[i] == path[i];
    }
    if WithinRoot(root, path) {
      assert root == path[..|root|];
    }
  }

  /** The position of the last '.' in a name, if any. */
  function LastDot(name: string): (r: Option<nat>)
    ensures r.Some? ==> r.value < |name| && name[r.value] == '.' && '.' !in name[r.value + 1..]
    ensures r.None? ==> '.' !in name
  {
    if |name| == 0 then None
    else if name[|name| - 1] == '.' then Some(|name| - 1)
    else
      var r := LastDot(name[..|name| - 1]);
      assert name == name[..|name| - 1] + [name[|name| - 1]];
      r
  }

  /** The extension of the last component: from its last '.', or "" when it has none or is "." or "..". */
  function Extension(path: Path): (r: string)
    ensures r == "" <==> |path| == 0 || path[|path| - 1] == "." || path[|path| - 1] == ".." || '.' !in path[|path| - 1]
    ensures r != "" ==> |path| > 0 && r[0] == '.' && '.' !in r[1..]
    ensures r != "" ==> |r| <= |path[|path| - 1]| && path[|path| - 1][|path[|path| - 1]| - |r|..] == r
  {
    if |path| == 0 then ""
    else
      var name := path[|path| - 1];
      if name == "." || name == ".." then ""
      else
        match LastDot(name)
        case None => ""
        case Some(i) => assert name[i..][1..] == name[i + 1..]; name[i..]
  }

  /** A file whose name ends in ".css" has the extension ".css", whatever comes before it. */
  lemma CssFileExtension(dir: Path, stem: string)
    ensures Extension(dir + [stem + ".css"]) == ".css"
  {
    var path := dir + [stem + ".css"];
    var name := stem + ".css";
    assert path[|path| - 1] == name;
    assert name[|name| - 4] == '.';
    assert name != "." && name != "..";
    var r := Extension(path);
    assert r != "";
    var k := |name| - |r|;
    assert name[k..] == r;
    assert r == name[|name| - 4..];
  }

  /** The file the default resource would serve, or the message of the exception it throws. */
  function Locate(fs: FileSystem, requestPath: string): Result<Path, string> {
    if fs.root.Failure? then Failure(fs.root.error)
    else
      match fs.resolve(fs.root.value, requestPath)
      case Failure(m) => Failure(m)
      case Success(p) =>
        if !WithinRoot(fs.root.value, p) then Failure("path must be within root path")
        else
          var file := if fs.isDirectory(p) then p + ["index.html"] else p;
          if !fs.isRegularFile(file) then Failure("file does not exist") else Success(file)
  }

  /** The body of the 400 answer for a request path and an exception message. */
  function FailureContent(requestPath: string, what: string): string {
    "Could not open path " + requestPath + ": " + CStr(what)
  }

  /** The default resource's response to a GET of `requestPath`. The file's contents stand for what the
      chunked sender streams after the head; the head's length is the file's size. */
  function DefaultResponse(fs: FileSystem, requestPath: string): string {
    match Locate(fs, requestPath)
    case Failure(m) =>
      Framed(FailureStatus, |FailureContent(requestPath, m)|, "", FailureContent(requestPath, m))
    case Success(file) =>
      match fs.read(file)
      case None =>
        var content := FailureContent(requestPath, "could not read file");
        Framed(FailureStatus, |content|, "", content)
      case Some(contents) =>
        Framed(SuccessStatus, |contents|, if Extension(file) == ".css" then CssTypeHeader else "", contents)
  }

  /** What is served: only a regular file inside the root, a directory's index.html in its place, with
      the CSS type exactly for ".css" files; everything else is a 400 naming the request path. */
  lemma DefaultResponseFrame(fs: FileSystem, requestPath: string)
    ensures var f := ReadResponse(DefaultResponse(fs, requestPath));
            && f.Some? && f.value.contentLength == |f.value.body|
            && (f.value.status == 200 <==> Locate(fs, requestPath).Success? && fs.read(Locate(fs, requestPath).value).Some?)
            && (f.value.status == 200 ==>
                  var file := Locate(fs, requestPath).value;
                  && fs.root.Success? && fs.root.value <= file && fs.isRegularFile(file)
                  && f.value.body == fs.read(file).value
                  && (f.value.css <==> Extension(file) == ".css"))
            && (f.value.status != 200 ==>
                  f.value.status == 400 && !f.value.css
                  && f.value.body == FailureContent(requestPath,
                       if Locate(fs, requestPath).Failure? then Locate(fs, requestPath).error else "could not read file"))
  {
    match Locate(fs, requestPath)
    case Failure(m) =>
      ReadFramed(FailureStatus, 400, |FailureContent(requestPath, m)|, false, FailureContent(requestPath, m));
    case Success(file) =>
      var p := fs.resolve(fs.root.value, requestPath).value;
      WithinRootIsPrefix(fs.root.value, p);
      assert p <= p + ["index.html"];
      match fs.read(file)
      case None =>
        var content := FailureContent(requestPath, "could not read file");
        ReadFramed(FailureStatus, 400, |content|, false, content);
      case Some(contents) =>
        ReadFramed(SuccessStatus, 200, |contents|, Extension(file) == ".css", contents);
  }

  /** A request resolving to a directory inside the root is served that directory's index.html. */
  lemma DirectoryServesIndex(fs: FileSystem, requestPath: string)
    requires fs.root.Success? && fs.resolve(fs.root.value, requestPath).Success?
    requires fs.root.value <= fs.resolve(fs.root.value, requestPath).value
    requires fs.isDirectory(fs.resolve(fs.root.value, requestPath).value)
    ensures var index := fs.resolve(fs.root.value, requestPath).value + ["index.html"];
            Locate(fs, requestPath) == if fs.isRegularFile(index) then Success(index) else Failure("file does not exist")
  {
    WithinRootIsPrefix(fs.root.value, fs.resolve(fs.root.value, requestPath).value);
  }

  /** A request resolving outside the root is refused before the file system is asked anything more. */
  lemma OutsideRootRefused(fs: FileSystem, requestPath: string)
    requires fs.root.Success? && fs.resolve(fs.root.value, requestPath).Success?
    requires !(fs.root.value <= fs.resolve(fs.root.value, requestPath).value)
    ensures Locate(fs, requestPath) == Failure("path must be within root path")
  {
    WithinRootIsPrefix(fs.root.value, fs.resolve(fs.root.value, requestPath).value);
  }

  // ---------------------------------------------------------------------------
  // Routes
  // ---------------------------------------------------------------------------

  datatype HttpMethod = Get | Post

  /** The service call each route hands its request to. */
  datatype Handler =
    | JoinNetwork | FormNetwork | AddPrefix | DeletePrefix
    | GetStatus | AvailableNetwork | Mdns | ConnectWifiNetwork

  const AddPrefixPath: string := "^/add_prefix"
  const AvailableNetworkPath: string := "^/available_network$"
  const BootMdnsPath: string := "^/boot_mdns$"
  const DeletePrefixPath: string := "^/delete_prefix"
  const FormNetworkPath: string := "^/form_network$"
  const GetNetworkPath: string := "^/get_properties$"
  const JoinNetworkPath: string := "^/join_network$"
  const SetNetworkPath: string := "^/settings$"
  const ConnectWifiNetworkPath: string := "^/connect_wifi_network$"

  datatype Registration = Registration(pattern: string, verb: HttpMethod, handler: Handler)

  /** The registrations `StartWebServer` makes, in order. */
  function Registrations(): seq<Registration> {
    [Registration(JoinNetworkPath, Post, JoinNetwork),
     Registration(FormNetworkPath, Post, FormNetwork),
     Registration(AddPrefixPath, Post, AddPrefix),
     Registration(DeletePrefixPath, Post, DeletePrefix),
     Registration(GetNetworkPath, Get, GetStatus),
     Registration(AvailableNetworkPath, Get, AvailableNetwork),
     Registration(BootMdnsPath, Post, Mdns),
     Registration(ConnectWifiNetworkPath, Post, ConnectWifiNetwork)]
  }

  /** The server's resource table: pattern, then method, to handler. */
  type Resources = map<string, map<HttpMethod, Handler>>

  /** `mServer->resource[aUrl][aMethod] = ...`. */
  function Register(res: Resources, r: Registration): Resources {
    res[r.pattern := (if r.pattern in res then res[r.pattern] else map[])[r.verb := r.handler]]
  }

  function RegisterAll(res: Resources, regs: seq<Registration>): Resources
    decreases |regs|
  {
    if |regs| == 0 then res else RegisterAll(Register(res, regs[0]), regs[1..])
  }

  predicate DistinctPatterns(regs: seq<Registration>) {
    forall i, j :: 0 <= i < j < |regs| ==> regs[i].pattern != regs[j].pattern
  }

  /** Registering routes with distinct patterns leaves each pattern with exactly its own method and
      handler, and no other pattern. */
  lemma {:induction false} RegisterAllDistinct(res: Resources, regs: seq<Registration>)
    requires DistinctPatterns(regs)
    requires forall i :: 0 <= i < |regs| ==> regs[i].pattern !in res
    ensures RegisterAll(res, regs).Keys == res.Keys + set i | 0 <= i < |regs| :: regs[i].pattern
    ensures forall p :: p in res ==> RegisterAll(res, regs)[p] == res[p]
    ensures forall i :: 0 <= i < |regs| ==> RegisterAll(res, regs)[regs[i].pattern] == map[regs[i].verb := regs[i].handler]
    decreases |regs|
  {
    if |regs| > 0 {
      var res' := Register(res, regs[0]);
      var rest := regs[1..];
      assert forall i :: 0 <= i < |rest| ==> rest[i] == regs[i + 1];
      RegisterAllDistinct(res', rest);
      var later := set i | 0 <= i < |rest| :: rest[i].pattern;
      var all := set i | 0 <= i < |regs| :: regs[i].pattern;
      assert all == {regs[0].pattern} + later by {
        forall p | p in all ensures p in {regs[0].pattern} + later {
          var i :| 0 <= i < |regs| && regs[i].pattern == p;
          if i > 0 {
            assert rest[i - 1].pattern == p;
          }
        }
      }
    }
  }

  /** The route table `StartWebServer` builds. */
  function Routes(): Resources {
    RegisterAll(map[], Registrations())
  }

  lemma PatternsDistinct()
    ensures DistinctPatterns(Registrations())
  {
  }

  /** The eight routes: the six that change state answer POST, the two reads answer GET, each with
      one handler. */
  lemma RouteTable()
    ensures Routes().Keys == set i | 0 <= i < |Registrations()| :: Registrations()[i].pattern
    ensures forall i :: 0 <= i < |Registrations()| ==>
              Routes()[Registrations()[i].pattern] == map[Registrations()[i].verb := Registrations()[i].handler]
  {
    PatternsDistinct();
    RegisterAllDistinct(map[], Registrations());
  }

  /** Each routed pattern answers one method with its own handler: the six that change state answer
      POST only and the two reads answer GET only. */
  lemma RouteMethods()
    ensures Routes()[JoinNetworkPath] == map[Post := JoinNetwork]
    ensures Routes()[FormNetworkPath] == map[Post := FormNetwork]
    ensures Routes()[AddPrefixPath] == map[Post := AddPrefix]
    ensures Routes()[DeletePrefixPath] == map[Post := DeletePrefix]
    ensures Routes()[GetNetworkPath] == map[Get := GetStatus]
    ensures Routes()[AvailableNetworkPath] == map[Get := AvailableNetwork]
    ensures Routes()[BootMdnsPath] == map[Post := Mdns]
    ensures Routes()[ConnectWifiNetworkPath] == map[Post := ConnectWifiNetwork]
  {
    RouteTable();
    var regs := Registrations();
    assert regs[0].pattern in Routes() && regs[1].pattern in Routes();
    assert regs[2].pattern in Routes() && regs[3].pattern in Routes();
    assert regs[4].pattern in Routes() && regs[5].pattern in Routes();
    assert regs[6].pattern in Routes() && regs[7].pattern in Routes();
  }

  /** Exactly those eight patterns are routed. */
  lemma RoutedPatterns()
    ensures Routes().Keys == PostPatterns() + GetPatterns()
  {
    RouteTable();
    var regs := Registrations();
    forall p | p in Routes()
      ensures p in PostPatterns() + GetPatterns()
    {
    }
    assert regs[0].pattern in Routes() && regs[1].pattern in Routes();
    assert regs[2].pattern in Routes() && regs[3].pattern in Routes();
    assert regs[4].pattern in Routes() && regs[5].pattern in Routes();
    assert regs[6].pattern in Routes() && regs[7].pattern in Routes();
  }

  /** The patterns of the routes that change state. */
  function PostPatterns(): set<string> {
    {JoinNetworkPath, FormNetworkPath, AddPrefixPath, DeletePrefixPath, BootMdnsPath, ConnectWifiNetworkPath}
  }

  /** The patterns of the two read-only routes. */
  function GetPatterns(): set<string> {
    {GetNetworkPath, AvailableNetworkPath}
  }

  /** The settings pattern is defined but never registered. */
  lemma SettingsNotRouted()
    ensures SetNetworkPath !in Routes()
  {
    RouteTable();
    SettingsPatternUnused();
  }

  lemma SettingsPatternUnused()
    ensures forall i :: 0 <= i < |Registrations()| ==> Registrations()[i].pattern != SetNetworkPath
  {
  }
}
