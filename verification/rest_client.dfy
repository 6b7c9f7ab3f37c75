/** The pure request-building rules of the shared REST client base class
    (`AtlassianRestAPI` in atlassian/rest_client.py): the Confluence `/wiki`
    rewrite of the base URL, `url_joiner`, `resource_url`, the query string
    `request` appends to the URL, and the way `get` decodes a response.
    The transport itself is not modelled: a call is a value of type `Call`,
    and the server's reply is supplied by the caller. */
module RestClient {
  import opened Wrappers
  import opened Text

  // ---------------------------------------------------------------------------
  // Python values, parameters and calls
  // ---------------------------------------------------------------------------

  /** A Python value as it is passed as an argument, a query parameter or a
      keyword argument. */
  datatype Value = Null | Str(s: string) | Int(i: int) | Bool(b: bool)

  /** Python truthiness of a value: the falsy values are `None`, the empty
      string, zero and `False`. */
  function Truthy(v: Value): (r: bool)
    ensures !r <==> v in {Null, Str(""), Int(0), Bool(false)}
  {
    match v
    case Null => false
    case Str(s) => s != ""
    case Int(i) => i != 0
    case Bool(b) => b
  }

  /** Python's `'{}'.format(v)`: text is inserted as it is, and an integer
      as the decimal text that `int()` reads back as the same integer. */
  function Format(v: Value): (r: string)
    ensures v.Str? ==> r == v.s
    ensures v.Int? ==> IsIntLiteral(r) && IntValue(r) == v.i
    ensures v.Int? && v.i >= 0 ==> r == Decimal(v.i)
  {
    match v
    case Null => "None"
    case Str(s) => s
    case Int(i) =>
      if i < 0 then
        var d := Decimal(-i);
        DecimalRoundTrip(-i);
        assert ("-" + d)[1..] == d;
        "-" + d
      else
        DecimalRoundTrip(i);
        Decimal(i)
    case Bool(b) => if b then "True" else "False"
  }

  /** Python's `'true' if b else 'false'`, as the REST API expects booleans. */
  function BoolText(b: bool): (r: Value)
    ensures r.Str? && Truthy(r)
  {
    Str(if b then "true" else "false")
  }

  /** Both boolean texts are truthy, yet they still tell the two values apart. */
  lemma BoolTextInjective(a: bool, b: bool)
    ensures BoolText(a) == BoolText(b) <==> a == b
  {
    assert "true" != "false" by { assert "true"[0] != "false"[0]; }
  }

  type Params = map<string, Value>

  type Headers = map<string, string>

  datatype Verb = Get | Post | Put | Delete

  /** One call into the transport (`get`, `post`, `put` or `delete`): the path,
      the query parameters, the flags appended after them, and the explicit
      headers (an empty map when the caller passes none). */
  datatype Call = Call(verb: Verb, path: string, params: Params, flags: seq<string>, headers: Headers)

  /** A plain `get(path, params=...)` call. */
  function GetCall(path: string, params: Params, flags: seq<string>): Call {
    Call(Get, path, params, flags, map[])
  }

  const DefaultHeaders: Headers :=
    map["Content-Type" := "application/json", "Accept" := "application/json"]

  const FormTokenHeaders: Headers :=
    map["Content-Type" := "application/x-www-form-urlencoded; charset=UTF-8",
        "X-Atlassian-Token" := "no-check"]

  /** `headers or self.default_headers`: the headers a request is sent with;
      never empty, and the caller's own headers whenever there are any. */
  function EffectiveHeaders(h: Headers): (r: Headers)
    ensures |r| > 0
    ensures |h| > 0 ==> r == h
    ensures |h| == 0 ==> "Accept" in r && r["Accept"] == "application/json"
  {
    if |h| == 0 then
      assert "Accept" in DefaultHeaders;
      DefaultHeaders
    else h
  }

  // ---------------------------------------------------------------------------
  // The client and its base URL
  // ---------------------------------------------------------------------------

  /** What the request-building rules read from a client instance. */
  datatype Client = Client(url: string, apiRoot: string, apiVersion: string)

  /** The condition under which `__init__` appends `/wiki` to the base URL:
      an Atlassian Cloud host, no `/wiki` yet, and a class whose name occurs
      in the word "Confluence". */
  function NeedsWiki(url: string, className: string): (r: bool)
    ensures Contains(url, "atlassian.net") && !Contains(url, "/wiki") && className == "Confluence" ==> r
    ensures Contains(url, "/wiki") ==> !r
  {
    && (Contains(url, "atlassian.net") || Contains(url, "jira.com"))
    && !Contains(url, "/wiki")
    && Contains("Confluence", className)
  }

  /** `url_joiner(url, path, trailing)`: both parts stripped of every leading
      and trailing `/`, joined with one `/`, and one more `/` when `trailing`. */
  function UrlJoiner(url: string, path: string, trailing: bool): (r: string)
    ensures r == Strip(url, '/') + "/" + Strip(path, '/') + (if trailing then "/" else "")
    ensures |r| > 0
    ensures r[|r| - 1] == '/' <==> trailing || Strip(path, '/') == ""
  {
    var link := Join("/", [Strip(url, '/'), Strip(path, '/')]);
    JoinPair("/", Strip(url, '/'), Strip(path, '/'));
    JoinedEndsInSlash(Strip(url, '/'), Strip(path, '/'), trailing);
    if trailing then link + "/" else link
  }

  lemma JoinPair(sep: string, a: string, b: string)
    ensures Join(sep, [a, b]) == a + sep + b
  {
    assert [a, b][1..] == [b];
  }

  /** The joined URL ends in `/` exactly when a trailing slash is asked for
      or the unpadded path is empty. */
  lemma JoinedEndsInSlash(a: string, b: string, trailing: bool)
    requires Unpadded(b, '/')
    ensures var r := a + "/" + b + (if trailing then "/" else "");
      r[|r| - 1] == '/' <==> trailing || b == ""
  {
    var link := a + "/" + b;
    assert link[|link| - 1] == if b == "" then '/' else b[|b| - 1];
    if trailing {
      assert (link + "/")[|link|] == '/';
    } else {
      assert link + "" == link;
    }
  }

  /** The base URL `__init__` stores: the `/wiki` rewrite applies exactly
      when `NeedsWiki` holds, and then the URL ends in `/wiki`. */
  function ConfluenceUrl(url: string, className: string): (r: string)
    ensures r != url <==> NeedsWiki(url, className)
    ensures r != url ==> r == Strip(url, '/') + "/wiki"
    ensures Contains(r, "/wiki") || r == url
  {
    if NeedsWiki(url, className) then
      JoinWiki(url);
      UrlJoiner(url, "/wiki", false)
    else
      url
  }

  /** Joining `/wiki` onto a URL leaves a URL ending in `/wiki`. */
  lemma JoinWiki(url: string)
    ensures UrlJoiner(url, "/wiki", false) == Strip(url, '/') + "/wiki"
    ensures Contains(UrlJoiner(url, "/wiki", false), "/wiki")
  {
    StripWiki();
    AppendWiki(Strip(url, '/'));
    ContainsSuffix(Strip(url, '/'), "/wiki");
  }

  lemma AppendWiki(w: string)
    ensures w + "/" + "wiki" + "" == w + "/wiki"
  {
    assert "/" + "wiki" == "/wiki";
    Regroup(w, "/", "wiki");
  }

  lemma StripWiki()
    ensures Strip("/wiki", '/') == "wiki"
  {
    assert "/wiki"[1..] == "wiki";
    assert StripLeft("wiki", '/') == "wiki";
    assert StripLeft("/wiki", '/') == "wiki";
    assert StripRight("wiki", '/') == "wiki";
  }

  /** Applying the `/wiki` rule twice is the same as applying it once. */
  lemma ConfluenceUrlIdempotent(url: string, className: string)
    ensures ConfluenceUrl(ConfluenceUrl(url, className), className) == ConfluenceUrl(url, className)
  {
  }

  /** A stripped string is its own strip. */
  lemma StripUnpadded(t: string, c: char)
    requires Unpadded(t, c)
    ensures Strip(t, c) == t
  {
    StripPadded(c, 0, t, 0);
    assert Repeat(c, 0) + t + Repeat(c, 0) == t;
  }

  /** A client as `__init__` builds it. */
  function Connect(url: string, className: string, apiRoot: string, apiVersion: string): (c: Client)
    ensures c.apiRoot == apiRoot && c.apiVersion == apiVersion
    ensures c.url == url <==> !NeedsWiki(url, className)
  {
    Client(ConfluenceUrl(url, className), apiRoot, apiVersion)
  }

  // ---------------------------------------------------------------------------
  // url_joiner and resource_url
  // ---------------------------------------------------------------------------

  /** The joined URL depends only on the stripped parts. */
  lemma UrlJoinerOfStripped(url: string, path: string, url': string, path': string, trailing: bool)
    requires Strip(url, '/') == Strip(url', '/') && Strip(path, '/') == Strip(path', '/')
    ensures UrlJoiner(url, path, trailing) == UrlJoiner(url', path', trailing)
  {
  }

  /** Extra slashes around either part never change the joined URL. */
  lemma UrlJoinerIgnoresOuterSlashes(url: string, path: string, trailing: bool, n1: nat, m1: nat, n2: nat, m2: nat)
    ensures UrlJoiner(Repeat('/', n1) + url + Repeat('/', m1), Repeat('/', n2) + path + Repeat('/', m2), trailing)
         == UrlJoiner(url, path, trailing)
  {
    var url' := Repeat('/', n1) + url + Repeat('/', m1);
    var path' := Repeat('/', n2) + path + Repeat('/', m2);
    StripIgnoresPadding(url, '/', n1, m1);
    StripIgnoresPadding(path, '/', n2, m2);
    UrlJoinerOfStripped(url', path', url, path, trailing);
  }

  /** The example the joiner is built for: `url_joiner("a/", "/b") == url_joiner("a", "b") == "a/b"`. */
  lemma UrlJoinerExample()
    ensures UrlJoiner("a/", "/b", false) == UrlJoiner("a", "b", false) == "a/b"
  {
    assert "a/" == "a" + "/" && "/b" == "/" + "b" && "a/b" == "a" + "/" + "b";
    UrlJoinerOfSlashed("a", "b");
  }

  lemma UrlJoinerOfSlashed(url: string, path: string)
    requires Unpadded(url, '/') && Unpadded(path, '/')
    ensures UrlJoiner(url + "/", "/" + path, false) == UrlJoiner(url, path, false) == url + "/" + path
  {
    UrlJoinerOneSlashEach(url, path);
    UrlJoinerOfUnpadded(url, path);
  }

  /** One slash after the URL and one before the path are dropped. */
  lemma UrlJoinerOneSlashEach(url: string, path: string)
    ensures UrlJoiner(url + "/", "/" + path, false) == UrlJoiner(url, path, false)
  {
    assert url + "/" == url + ['/'] && "/" + path == ['/'] + path;
    StripIgnoresTrailingChar(url, '/');
    StripIgnoresLeadingChar(path, '/');
  }

  /** Parts without outer slashes are joined as they are, with one `/`. */
  lemma UrlJoinerOfUnpadded(url: string, path: string)
    requires Unpadded(url, '/') && Unpadded(path, '/')
    ensures UrlJoiner(url, path, false) == url + "/" + path
  {
    StripUnpadded(url, '/');
    StripUnpadded(path, '/');
  }

  /** `trailing` appends exactly one `/` to the joined URL. */
  lemma UrlJoinerTrailing(url: string, path: string)
    ensures UrlJoiner(url, path, true) == UrlJoiner(url, path, false) + "/"
  {
  }

  /** `resource_url(resource)`: the API root, the API version and the resource
      joined by `/`, with no stripping. */
  function ResourceUrl(c: Client, resource: string): (r: string)
    ensures r == c.apiRoot + "/" + c.apiVersion + "/" + resource
    ensures |c.apiRoot| <= |r| && r[..|c.apiRoot|] == c.apiRoot
    ensures |resource| <= |r| && r[|r| - |resource|..] == resource
  {
    var parts := [c.apiRoot, c.apiVersion, resource];
    assert parts[1..] == [c.apiVersion, resource];
    assert parts[1..][1..] == [resource];
    assert Join("/", parts[1..][1..]) == resource;
    assert Join("/", parts[1..]) == c.apiVersion + "/" + resource;
    var r := Join("/", parts);
    assert r == c.apiRoot + "/" + (c.apiVersion + "/" + resource);
    r
  }

  // ---------------------------------------------------------------------------
  // The URL a request is sent to
  // ---------------------------------------------------------------------------

  /** What `request` puts after the `?`: the encoded parameters, then the
      flags joined by `&`, with a separating `&` only when there are
      parameters. `encode` stands for `urlencode`, which is not modelled. */
  function Query(call: Call, encode: Params -> string): (q: string)
    ensures |call.params| == 0 ==> q == Join("&", call.flags)
    ensures |call.params| > 0 && |call.flags| == 0 ==> q == encode(call.params)
    ensures |call.params| > 0 && |call.flags| > 0 ==> q == encode(call.params) + "&" + Join("&", call.flags)
  {
    var encoded := if |call.params| > 0 then encode(call.params) else "";
    if |call.flags| > 0 then encoded + (if |call.params| > 0 then "&" else "") + Join("&", call.flags)
    else encoded
  }

  /** The URL `request` builds for a call, step by step as `request` does:
      the joined base URL and path, then `?` when there are parameters or
      flags, then the encoded parameters, then the flags. */
  function RequestUrl(c: Client, call: Call, trailing: bool, encode: Params -> string): (r: string)
    ensures |call.params| == 0 && |call.flags| == 0 ==> r == UrlJoiner(c.url, call.path, trailing)
    ensures |call.params| > 0 || |call.flags| > 0 ==> r == UrlJoiner(c.url, call.path, trailing) + "?" + Query(call, encode)
  {
    var hasParams, hasFlags := |call.params| > 0, |call.flags| > 0;
    var url := UrlJoiner(c.url, call.path, trailing);
    var url' := if hasParams || hasFlags then url + "?" else url;
    var url'' := if hasParams then url' + encode(call.params) else url';
    if hasFlags then
      var sep := if hasParams then "&" else "";
      QueryAssembly(url', if hasParams then encode(call.params) else "", sep, Join("&", call.flags));
      url'' + sep + Join("&", call.flags)
    else url''
  }

  /** Appending the query piece by piece is appending it whole. */
  lemma QueryAssembly(head: string, encoded: string, sep: string, flags: string)
    ensures head + encoded + sep + flags == head + (encoded + sep + flags)
    ensures head + "" == head && "" + sep + flags == sep + flags
  {
  }

  /** The query separator `?` sits right after the joined base URL exactly
      when the call has parameters or flags. */
  lemma RequestUrlHasQuery(c: Client, call: Call, trailing: bool, encode: Params -> string)
    ensures var base := UrlJoiner(c.url, call.path, trailing);
      var r := RequestUrl(c, call, trailing, encode);
      && |base| <= |r| && r[..|base|] == base
      && (|r| > |base| && r[|base|] == '?' <==> |call.params| > 0 || |call.flags| > 0)
  {
    var base := UrlJoiner(c.url, call.path, trailing);
    var r := RequestUrl(c, call, trailing, encode);
    if |call.params| > 0 || |call.flags| > 0 {
      var q := Query(call, encode);
      assert r == (base + "?") + q;
      assert r[..|base|] == base;
      assert r[|base|] == '?';
    } else {
      assert r == base;
    }
  }

  /** Splitting the query string at `&` ends with the flags, in order, as
      long as no flag holds an `&`; with no parameters the pieces are
      exactly the flags. */
  lemma QueryFlagsLast(call: Call, encode: Params -> string)
    requires |call.flags| > 0
    requires forall i :: 0 <= i < |call.flags| ==> '&' !in call.flags[i]
    ensures var pieces := Split(Query(call, encode), '&');
      && |pieces| >= |call.flags|
      && pieces[|pieces| - |call.flags|..] == call.flags
      && (|call.params| == 0 ==> pieces == call.flags)
  {
    SplitJoin(call.flags, '&');
    if |call.params| > 0 {
      SplitAppend(encode(call.params), '&', Join("&", call.flags));
    }
  }

  // ---------------------------------------------------------------------------
  // Decoding what `get` returns
  // ---------------------------------------------------------------------------

  newtype byte = x: int | 0 <= x < 256

  /** A decoded JSON document (numbers are integers here). */
  datatype Json =
    | JNull
    | JBool(b: bool)
    | JNum(n: int)
    | JStr(s: string)
    | JArray(elems: seq<Json>)
    | JObject(fields: map<string, Json>)

  /** Python truthiness of a decoded JSON value: the falsy values are
      `None`, `False`, zero, the empty string, the empty list and the empty
      dict. */
  function JsonTruthy(j: Json): (r: bool)
    ensures !r <==> j in {JNull, JBool(false), JNum(0), JStr(""), JArray([]), JObject(map[])}
  {
    match j
    case JNull => false
    case JBool(b) => b
    case JNum(n) => n != 0
    case JStr(s) => s != ""
    case JArray(elems) => |elems| > 0
    case JObject(fields) => |fields| > 0
  }

  /** What the transport hands back: the body as text and as raw bytes. */
  datatype Response = Response(text: string, content: seq<byte>)

  /** What `get` returns: `None`, the raw bytes, parsed JSON or the text. */
  datatype Answer = Nothing | Raw(bytes: seq<byte>) | Parsed(value: Json) | Plain(text: string)

  /** Python truthiness of what `get` returned: `None`, empty bytes, empty
      text and a falsy JSON value are falsy, and nothing else is. */
  function AnswerTruthy(a: Answer): (r: bool)
    ensures !r <==> a in {Nothing, Raw([]), Plain("")} || (a.Parsed? && !JsonTruthy(a.value))
  {
    match a
    case Nothing => false
    case Raw(bytes) => |bytes| > 0
    case Parsed(value) => JsonTruthy(value)
    case Plain(text) => text != ""
  }

  /** `get`'s result choice: raw bytes when a non-JSON response is asked for;
      otherwise `None` for an empty body, the parsed JSON when `parse` (the
      JSON decoder, not modelled) succeeds, and the text when it fails. */
  function DecodeGet(resp: Response, notJsonResponse: bool, parse: string -> Option<Json>): (a: Answer)
    ensures a.Raw? <==> notJsonResponse
    ensures a.Raw? ==> a.bytes == resp.content
    ensures a.Nothing? <==> !notJsonResponse && resp.text == ""
    ensures a.Parsed? <==> !notJsonResponse && resp.text != "" && parse(resp.text).Some?
    ensures a.Parsed? ==> parse(resp.text) == Some(a.value)
    ensures a.Plain? ==> a.text == resp.text && a.text != "" && parse(resp.text).None?
  {
    if notJsonResponse then Raw(resp.content)
    else if resp.text == "" then Nothing
    else match parse(resp.text)
      case Some(j) => Parsed(j)
      case None => Plain(resp.text)
  }

  /** Whatever `get` returns for a JSON request is falsy when the body is
      empty, and is the text itself when the text is not JSON. */
  lemma DecodeGetTextFallback(resp: Response, parse: string -> Option<Json>)
    requires resp.text != "" && parse(resp.text).None?
    ensures DecodeGet(resp, false, parse) == Plain(resp.text)
    ensures AnswerTruthy(DecodeGet(resp, false, parse))
  {
  }
}
