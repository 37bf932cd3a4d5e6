/** The HTTP server of the custom firmware (custom_firmware/server/index.js): paths
    under /api/ are calls, everything else a file of the web interface. Calls other
    than the login need a session token, which stays valid for two hours after its
    last use. */
module HttpServer {
  import opened Options
  import opened Bytes
  import opened Text
  import opened SettingsForm
  import ServerSettings

  const SESSION_TIMEOUT_MS: int := 2 * 3600 * 1000
  /** A request body that reaches this many bytes is refused. */
  const BODY_LIMIT: nat := 128 * 1024
  const API_PREFIX := "/api/"

  /** `handleRequest`: where a path goes. */
  datatype Route = Api(action: string) | Static(pathname: string)

  function RouteOf(pathname: string): (r: Route)
    ensures r.Api? <==> StartsWith(pathname, API_PREFIX)
    ensures r.Api? ==> pathname == API_PREFIX + r.action
    ensures r.Static? ==> r.pathname == pathname
  {
    if StartsWith(pathname, API_PREFIX) then Api(pathname[|API_PREFIX|..]) else Static(pathname)
  }

  // Static files

  /** The content types the server knows, by file extension. */
  const CONTENT_TYPES: map<string, string> := map[
    "html" := "text/html; charset=utf-8",
    "js" := "application/javascript; charset=utf-8",
    "map" := "application/json; charset=utf-8",
    "png" := "image/png",
    "ico" := "image/x-icon",
    "css" := "text/css; charset=utf-8"]

  /** The chain of extension tests in `handleStatic`. */
  function ExtensionType(ending: string): string {
    if ending == "html" then "text/html; charset=utf-8"
    else if ending == "js" then "application/javascript; charset=utf-8"
    else if ending == "map" then "application/json; charset=utf-8"
    else if ending == "png" then "image/png"
    else if ending == "ico" then "image/x-icon"
    else if ending == "css" then "text/css; charset=utf-8"
    else "text/plain"
  }

  /** No known extension is longer than four characters. */
  lemma LongExtension(ending: string)
    requires |ending| > 4
    ensures ExtensionType(ending) == "text/plain"
  {
    assert |ending| != |"html"| && |ending| != |"js"| && |ending| != |"map"|;
  }

  /** The chain agrees with the table: a known extension has its type, any other
      is served as plain text. */
  lemma ExtensionTypeTable(ending: string)
    ensures ExtensionType(ending) == if ending in CONTENT_TYPES then CONTENT_TYPES[ending] else "text/plain"
  {
  }

  /** The content type of a URL: that of what follows its last dot, or HTML when
      there is no dot. */
  function ContentType(url: string): string {
    match LastIndexOf(url, '.')
    case None => "text/html"
    case Some(pos) => ExtensionType(url[pos + 1..])
  }

  /** The type is chosen by the extension after the last dot. */
  lemma ContentTypeOf(base: string, ending: string)
    requires forall i :: 0 <= i < |ending| ==> ending[i] != '.'
    ensures ContentType(base + "." + ending)
      == if ending in CONTENT_TYPES then CONTENT_TYPES[ending] else "text/plain"
  {
    LastDotDecides(base, ending);
    ExtensionTypeTable(ending);
  }

  /** What follows the last dot goes through the chain of extension tests. */
  lemma LastDotDecides(base: string, ending: string)
    requires forall i :: 0 <= i < |ending| ==> ending[i] != '.'
    ensures ContentType(base + "." + ending) == ExtensionType(ending)
  {
    var url := base + "." + ending;
    assert url[|base|] == '.';
    assert forall j :: |base| < j < |url| ==> url[j] == ending[j - |base| - 1];
    var pos := LastIndexOf(url, '.');
    assert pos == Some(|base|);
    assert url[|base| + 1..] == ending;
  }

  /** A URL without a dot is served as HTML. */
  lemma ContentTypeNoDot(url: string)
    requires forall i :: 0 <= i < |url| ==> url[i] != '.'
    ensures ContentType(url) == "text/html"
  {
  }

  /** The file `handleStatic` streams when asked for a path, with the request's
      URL at hand: as written, the URL of the request (query string included)
      replaces the path unless the path is the root. */
  function StaticFileAsWritten(pathname: string, requestUrl: string): (f: string)
    ensures pathname == "/" ==> f == "/index.html"
    ensures pathname != "/" ==> f == requestUrl
  {
    if pathname == "/" then "/index.html" else requestUrl
  }

  /** The file meant: the root is the index page, any other path that file. */
  function StaticFile(pathname: string): (f: string)
    ensures pathname == "/" ==> f == "/index.html"
    ensures pathname != "/" ==> f == pathname
  {
    if pathname == "/" then "/index.html" else pathname
  }

  /** With a query string the extension read off the request URL takes the query
      along: a script asked for with a version parameter is served as plain text,
      where its path is served as a script. */
  lemma QueryStringServedAsText()
    ensures ContentType(StaticFileAsWritten("/main.js", "/main.js?v=2")) == "text/plain"
    ensures ContentType(StaticFile("/main.js")) == "application/javascript; charset=utf-8"
  {
    assert "/main.js?v=2" == "/main" + "." + "js?v=2";
    LastDotDecides("/main", "js?v=2");
    LongExtension("js?v=2");
    assert "/main.js" == "/main" + "." + "js";
    LastDotDecides("/main", "js");
  }

  /** The root is served as the HTML index page. */
  lemma RootServedAsIndex()
    ensures ContentType(StaticFile("/")) == "text/html; charset=utf-8"
  {
    assert "/index.html" == "/index" + "." + "html";
    LastDotDecides("/index", "html");
  }

  /** What `handleStatic` answers: a content type, and the file streamed, or None
      for status 500. */
  datatype StaticReply = StaticReply(contentType: string, file: Option<string>)

  /** `handleStatic`, given the files of the web interface: the file asked for, or
      the index page when it is missing (under the content type of the path asked
      for), or 500 when that is missing too. */
  function HandleStatic(pathname: string, files: set<string>): (r: StaticReply)
    ensures r.contentType == ContentType(StaticFile(pathname))
    ensures r.file.Some? <==> StaticFile(pathname) in files || "/index.html" in files
    ensures r.file.Some? ==> r.file.value in files
    ensures r.file.Some? && r.file.value != StaticFile(pathname) ==> r.file.value == "/index.html"
  {
    var f := StaticFile(pathname);
    StaticReply(ContentType(f),
      if f in files then Some(f) else if "/index.html" in files then Some("/index.html") else None)
  }

  /** A file asked for by its path gets the type of that path's extension. */
  lemma StaticTypeFollowsPath(base: string, ending: string, files: set<string>)
    requires forall i :: 0 <= i < |ending| ==> ending[i] != '.'
    ensures HandleStatic(base + "." + ending, files).contentType
      == if ending in CONTENT_TYPES then CONTENT_TYPES[ending] else "text/plain"
  {
    var path := base + "." + ending;
    assert path[|base|] == '.' && path != "/";
    ContentTypeOf(base, ending);
  }

  // Request bodies

  /** The number of bytes in the chunks. */
  function Total(chunks: seq<seq<Byte>>): nat {
    if chunks == [] then 0 else Total(chunks[..|chunks| - 1]) + |chunks[|chunks| - 1]|
  }

  /** `Buffer.concat`. */
  function Concat(chunks: seq<seq<Byte>>): (b: seq<Byte>)
    ensures |b| == Total(chunks)
  {
    if chunks == [] then [] else Concat(chunks[..|chunks| - 1]) + chunks[|chunks| - 1]
  }

  /** How many chunks are kept: those that arrive while the running count stays
      below the limit. */
  function Kept(chunks: seq<seq<Byte>>): (k: nat)
    ensures k <= |chunks| && Total(chunks[..k]) < BODY_LIMIT
    ensures forall j :: k < j <= |chunks| ==> Total(chunks[..j]) >= BODY_LIMIT
  {
    if Total(chunks) < BODY_LIMIT then
      assert chunks[..|chunks|] == chunks;
      |chunks|
    else
      var p := chunks[..|chunks| - 1];
      var k := Kept(p);
      assert forall j :: 0 <= j <= |p| ==> chunks[..j] == p[..j];
      assert chunks[..|chunks|] == chunks;
      k
  }

  /** The body as the `data` handler leaves it. */
  datatype Received = Received(tooLarge: bool, data: seq<Byte>)

  /** The `data` handler, over all the chunks of a request: the running count
      reaching 128 KiB answers 500, and from then on no chunk is kept. */
  method Receive(chunks: seq<seq<Byte>>) returns (r: Received)
    ensures r.tooLarge <==> Total(chunks) >= BODY_LIMIT
    ensures r.data == Concat(chunks[..Kept(chunks)])
    ensures |r.data| < BODY_LIMIT
  {
    var body: seq<seq<Byte>> := [];
    var len := 0;
    var tooLarge := false;
    for i := 0 to |chunks|
      invariant len == Total(chunks[..i])
      invariant body == chunks[..Kept(chunks[..i])]
      invariant tooLarge <==> len >= BODY_LIMIT
    {
      assert chunks[..i + 1][..i] == chunks[..i];
      len := len + |chunks[i]|;
      if len >= BODY_LIMIT {
        tooLarge := true;
      } else {
        assert chunks[..i + 1][..i + 1] == chunks[..i + 1];
        body := body + [chunks[i]];
      }
    }
    assert chunks[..|chunks|] == chunks;
    r := Received(tooLarge, Concat(body));
  }

  // Sessions

  /** A token is live when it was recorded less than two hours before now. */
  predicate LiveIn(tokens: map<string, int>, token: string, now: int) {
    token in tokens && now - tokens[token] < SESSION_TIMEOUT_MS
  }

  /** Whether some random draw collides with no live token. */
  predicate Free(tokens: map<string, int>, now: int, draws: seq<string>) {
    exists i :: 0 <= i < |draws| && !LiveIn(tokens, draws[i], now)
  }

  /** The first draw that collides with no live token. */
  function FirstFree(tokens: map<string, int>, now: int, draws: seq<string>): (k: nat)
    requires Free(tokens, now, draws)
    ensures k < |draws| && !LiveIn(tokens, draws[k], now)
    ensures forall j :: 0 <= j < k ==> LiveIn(tokens, draws[j], now)
  {
    if !LiveIn(tokens, draws[0], now) then 0
    else
      var rest := draws[1..];
      assert forall i :: 1 <= i < |draws| ==> draws[i] == rest[i - 1];
      FirstFree(tokens, now, rest) + 1
  }

  /** A refreshed token lives exactly two hours from now. */
  lemma RefreshedLives(tokens: map<string, int>, token: string, now: int, later: int)
    ensures LiveIn(tokens[token := now], token, later) <==> later - now < SESSION_TIMEOUT_MS
  {
  }

  /** The properties an empty object literal inherits from Object.prototype
      (section 15.2.4 of ECMA-262, 5.1 edition, and the `__proto__` accessor). */
  const INHERITED: set<string> :=
    {"constructor", "toString", "toLocaleString", "valueOf", "hasOwnProperty",
     "isPrototypeOf", "propertyIsEnumerable", "__proto__"}

  /** The token check as written on `gLoginTokens = {}`: `tim === undefined ||
      now - tim >= SESSION_TIMEOUT_MS` refuses. An inherited name looks up a
      function or an object, not undefined, and `now - tim` is then NaN, which is
      not `>=` anything, so the check passes. */
  predicate PassesAsWritten(tokens: map<string, int>, token: string, now: int) {
    if token in tokens then now - tokens[token] < SESSION_TIMEOUT_MS else token in INHERITED
  }

  /** A call with the name of an inherited property, never issued by a login,
      passes the check as written: `{"token": "constructor"}` reaches the settings. */
  lemma InheritedNamePasses(tokens: map<string, int>, token: string, now: int)
    requires token in INHERITED && token !in tokens
    ensures PassesAsWritten(tokens, token, now) && !LiveIn(tokens, token, now)
  {
  }

  /** For every other token, the check as written is the own-key check LiveIn. */
  lemma PassesAsWrittenElsewhere(tokens: map<string, int>, token: string, now: int)
    requires token !in INHERITED || token in tokens
    ensures PassesAsWritten(tokens, token, now) <==> LiveIn(tokens, token, now)
  {
  }

  /** The JSON body of a call: the login password (absent, or a string), the
      session token and the settings form. */
  datatype Body = Body(password: Option<string>, token: string, form: Form)

  /** What a call answers: a status code, the new token, `{}` after a logout, the
      settings, the answer to a settings form, or the hand-over to the version or
      firmware handlers. */
  datatype Response =
    | Status(code: nat)
    | LoggedIn(token: string)
    | LoggedOut
    | SettingsView(view: ServerSettings.View)
    | SettingsSet(reply: Reply)
    | Version
    | Firmware

  class Server {
    /** `gLoginTokens`: the time each token was issued or last used. */
    var tokens: map<string, int>
    const settings: ServerSettings.Settings

    constructor(settings: ServerSettings.Settings)
      ensures tokens == map[] && this.settings == settings
    {
      tokens := map[];
      this.settings := settings;
    }

    /** The token check of every call but the login: a live token is refreshed to
        now, any other is refused and changes nothing. */
    method Authorize(token: string, now: int) returns (ok: bool)
      modifies this
      ensures ok == LiveIn(old(tokens), token, now)
      ensures tokens == if ok then old(tokens)[token := now] else old(tokens)
    {
      ok := token in tokens && now - tokens[token] < SESSION_TIMEOUT_MS;
      if ok {
        tokens := tokens[token := now];
      }
    }

    /** The token loop of the login: random tokens are drawn until one collides
        with no live token, and it is recorded with now. */
    method IssueToken(now: int, draws: seq<string>) returns (token: string)
      requires Free(tokens, now, draws)
      modifies this
      ensures token == draws[FirstFree(old(tokens), now, draws)]
      ensures !LiveIn(old(tokens), token, now)
      ensures tokens == old(tokens)[token := now]
    {
      var i := 0;
      token := draws[0];
      while token in tokens && now - tokens[token] < SESSION_TIMEOUT_MS
        invariant i < |draws| && token == draws[i]
        invariant forall j :: 0 <= j < i ==> LiveIn(tokens, draws[j], now)
        invariant exists j :: i <= j < |draws| && !LiveIn(tokens, draws[j], now)
        decreases |draws| - i
      {
        i := i + 1;
        token := draws[i];
      }
      assert i == FirstFree(tokens, now, draws) by {
        var k := FirstFree(tokens, now, draws);
        assert !(k < i) && !(i < k);
      }
      tokens := tokens[token := now];
    }

    /** `handleFirmware` behind its token check, the token coming from the query
        string; the body is not read. */
    method UploadFirmware(queryToken: string, now: int) returns (res: Response)
      modifies this
      ensures LiveIn(old(tokens), queryToken, now) ==> res == Firmware && tokens == old(tokens)[queryToken := now]
      ensures !LiveIn(old(tokens), queryToken, now) ==> res == Status(401) && tokens == old(tokens)
    {
      var ok := Authorize(queryToken, now);
      res := if ok then Firmware else Status(401);
    }

    /** The `end` handler of a call, on the outcome of parsing the body (None: not
        JSON): a login with the right password gets a new token, a logout drops its
        token, any other call needs a live token, which it refreshes, and names
        one of the settings or version calls or gets 404. */
    method End(action: string, parsed: Option<Body>, now: int, wifi: ServerSettings.Wifi, draws: seq<string>)
      returns (res: Response)
      requires settings.Valid()
      requires action == "Login" ==> Free(tokens, now, draws)
      modifies this, settings
      ensures settings.Valid()
      ensures parsed.None? ==> res == Status(500) && tokens == old(tokens)
      ensures !(parsed.Some? && action == "SetSettings") ==> unchanged(settings)
      ensures parsed.Some? && action == "Login" && parsed.value.password != Some(old(settings.password)) ==>
        res == Status(401) && tokens == old(tokens)
      ensures parsed.Some? && action == "Login" && parsed.value.password == Some(old(settings.password)) ==>
        var token := draws[FirstFree(old(tokens), now, draws)];
        res == LoggedIn(token) && tokens == old(tokens)[token := now] && !LiveIn(old(tokens), token, now)
      ensures parsed.Some? && action == "Logout" ==> res == LoggedOut && tokens == old(tokens) - {parsed.value.token}
      ensures parsed.Some? && action != "Login" && action != "Logout" && !LiveIn(old(tokens), parsed.value.token, now) ==>
        res == Status(401) && tokens == old(tokens) && unchanged(settings)
      ensures parsed.Some? && action != "Login" && action != "Logout" && LiveIn(old(tokens), parsed.value.token, now) ==>
        tokens == old(tokens)[parsed.value.token := now]
      ensures parsed.Some? && action == "GetSettings" && LiveIn(old(tokens), parsed.value.token, now) ==>
        res == SettingsView(ServerSettings.GetSettings(wifi))
      ensures parsed.Some? && action == "SetSettings" && LiveIn(old(tokens), parsed.value.token, now) ==>
        var form := parsed.value.form;
        && res == SettingsSet(if Validate(form).Some? then Rejected(Validate(form).value) else Success)
        && settings.password == (if Validate(form).Some? then old(settings.password) else Assign(old(settings.password), form.password))
        && settings.written == old(settings.written)
             + (if Validate(form).None? && !form.password.Absent? then [settings.password] else [])
        && settings.scheduled == old(settings.scheduled)
             + (var u := ServerSettings.UpdateOf(form);
                if Validate(form).None? && (u.ssid.Some? || u.password.Some?) then [u] else [])
      ensures parsed.Some? && action == "GetVersion" && LiveIn(old(tokens), parsed.value.token, now) ==> res == Version
      ensures parsed.Some? && action !in {"Login", "Logout", "GetSettings", "SetSettings", "GetVersion"} && LiveIn(old(tokens), parsed.value.token, now) ==>
        res == Status(404)
    {
      if parsed.None? {
        return Status(500);
      }
      var body := parsed.value;
      if action == "Login" {
        if body.password != Some(settings.GetPassword()) {
          return Status(401);
        }
        var token := IssueToken(now, draws);
        return LoggedIn(token);
      } else if action == "Logout" {
        tokens := tokens - {body.token};
        return LoggedOut;
      }
      var ok := Authorize(body.token, now);
      if !ok {
        return Status(401);
      }
      if action == "GetSettings" {
        res := SettingsView(ServerSettings.GetSettings(wifi));
      } else if action == "SetSettings" {
        var reply := settings.SetSettings(body.form);
        res := SettingsSet(reply);
      } else if action == "GetVersion" {
        res := Version;
      } else {
        res := Status(404);
      }
    }
  }
}
