/**
 * The HTTP client's url splitting and the rules that turn a request's outcome into
 * success or an error text. The transport itself (sessions, handles, timeouts, the
 * read loops, the worker thread) is not modelled: what it produced is a parameter.
 */
module Http {
  import opened Common
  import opened Strings

  /** `url_parts`: what `url_parts::parse` fills in. */
  datatype UrlParts = UrlParts(scheme: string, host: string, port: int, path: string)

  /** The port used when the url names none. */
  function DefaultPort(scheme: string): (p: int)
    ensures p == 443 <==> scheme == "https"
    ensures p != 443 ==> p == 80
  {
    if scheme == "https" then 443 else 80
  }

  /**
   * `url_parts::parse`: the scheme is the text before the first `://`. In the text after
   * it, a `:` before the first `/` (or anywhere, when there is no `/`) ends the host and
   * starts a port, read with `atoi` up to the `/` or the end; otherwise the host runs
   * to the `/` or the end and the port follows the scheme. The path is everything from
   * that `/` on, query included, or `/` when there is none. No `://` is an error.
   */
  function ParseUrl(url: string): (r: Option<UrlParts>)
    ensures r.None? <==> forall i :: !OccursAt(url, "://", i)
    ensures r.Some? ==>
      var k := |r.value.scheme|;
      OccursAt(url, "://", k) && r.value.scheme == url[..k]
      && (forall j :: 0 <= j < k ==> !OccursAt(url, "://", j))
      && r.value == SplitAuthority(r.value.scheme, url[k + 3..])
  {
    match IndexOf(url, "://")
    case None => None
    case Some(k) => Some(SplitAuthority(url[..k], url[k + 3..]))
  }

  /** The part of `url_parts::parse` after the scheme; `rest` is the text after `://`. */
  function SplitAuthority(scheme: string, rest: string): (u: UrlParts)
    ensures u.scheme == scheme
    ensures ':' !in u.host && '/' !in u.host
    ensures '/' !in rest ==> u.path == "/"
    ensures '/' in rest ==> 0 < |u.path| <= |rest| && u.path[0] == '/' && rest[|rest| - |u.path|..] == u.path
  {
    var slash := IndexOfChar(rest, '/');
    var colon := IndexOfChar(rest, ':');
    var path := if slash.Some? then rest[slash.value..] else "/";
    if colon.Some? && (slash.None? || colon.value < slash.value) then
      var c := colon.value;
      var portText := if slash.Some? then rest[c + 1..slash.value] else rest[c + 1..];
      UrlParts(scheme, rest[..c], Atoi(portText), path)
    else if slash.Some? then
      UrlParts(scheme, rest[..slash.value], DefaultPort(scheme), path)
    else
      UrlParts(scheme, rest, DefaultPort(scheme), path)
  }

  /** The first `://` of a url built from a scheme without `:` is the one after the scheme. */
  lemma SchemeEnd(scheme: string, tail: string)
    requires ':' !in scheme
    ensures IndexOf(scheme + "://" + tail, "://") == Some(|scheme|)
  {
    var url := scheme + "://" + tail;
    assert url[|scheme|..|scheme| + 3] == "://";
    forall j | 0 <= j < |scheme|
      ensures !OccursAt(url, "://", j)
    {
      assert url[j] == scheme[j] != ':';
      assert j + 3 <= |url| ==> url[j..j + 3][0] == url[j];
    }
    IndexOfUnique(url, "://", |scheme|);
  }

  /** After the scheme: a host and an optional path, with no port. */
  lemma SplitWithoutPort(scheme: string, host: string, path: string)
    requires ':' !in host && '/' !in host
    requires path == [] || path[0] == '/'
    ensures SplitAuthority(scheme, host + path)
      == UrlParts(scheme, host, DefaultPort(scheme), if path == [] then "/" else path)
  {
    var rest := host + path;
    IndexOfCharAppend(host, path, '/');
    IndexOfCharAppend(host, path, ':');
    if path != [] {
      assert IndexOfChar(path, '/') == Some(0);
      assert rest[..|host|] == host && rest[|host|..] == path;
    } else {
      assert rest == host;
    }
  }

  /** After the scheme: a host, a port text without `:` or `/`, and an optional path. */
  lemma SplitWithPortText(scheme: string, host: string, digits: string, path: string)
    requires ':' !in host && '/' !in host && ':' !in digits && '/' !in digits
    requires path == [] || path[0] == '/'
    ensures SplitAuthority(scheme, host + ":" + digits + path)
      == UrlParts(scheme, host, Atoi(digits), if path == [] then "/" else path)
  {
    var front := host + ":" + digits;
    var rest := front + path;
    assert rest == host + (":" + digits + path);
    FirstAfter(host, ":" + digits + path, ':');
    NotInJoined(host, digits, '/');
    assert '/' !in front;
    if path != [] {
      FirstAfter(front, path, '/');
      assert rest[..|host|] == host;
      assert rest[|host| + 1..|front|] == digits;
      assert rest[|front|..] == path;
    } else {
      NotInEither(front, path, '/');
      assert rest == front;
      assert rest[..|host|] == host;
      assert rest[|host| + 1..] == digits;
    }
  }

  /** A character not in `a` that starts `b` is first found at `|a|` in `a + b`. */
  lemma FirstAfter(a: string, b: string, c: char)
    requires c !in a && |b| > 0 && b[0] == c
    ensures IndexOfChar(a + b, c) == Some(|a|)
  {
    IndexOfCharAppend(a, b, c);
    assert IndexOfChar(b, c) == Some(0);
  }

  /** A character in neither part is not found in the two joined. */
  lemma NotInEither(a: string, b: string, c: char)
    requires c !in a && c !in b
    ensures IndexOfChar(a + b, c) == None
  {
    IndexOfCharAppend(a, b, c);
  }

  /** A character in neither half, and not `:`, is not in the halves joined by `:`. */
  lemma NotInJoined(a: string, b: string, c: char)
    requires c !in a && c !in b && c != ':'
    ensures c !in a + ":" + b
  {
    assert a + ":" + b == a + ([':'] + b);
    assert c !in [':'] + b;
  }

  /** After the scheme: a host, a decimal port and an optional path. */
  lemma SplitWithPort(scheme: string, host: string, port: nat, path: string)
    requires ':' !in host && '/' !in host
    requires path == [] || path[0] == '/'
    ensures SplitAuthority(scheme, host + ":" + NatToString(port) + path)
      == UrlParts(scheme, host, port, if path == [] then "/" else path)
  {
    var digits := NatToString(port);
    assert ':' !in digits && '/' !in digits by {
      assert forall i :: 0 <= i < |digits| ==> IsDigit(digits[i]);
    }
    SplitWithPortText(scheme, host, digits, path);
    AtoiOfNatToString(port, []);
    assert digits + [] == digits;
  }

  /** Regrouping a url's pieces. */
  lemma Regroup(a: string, b: string, c: string, d: string, e: string, f: string)
    ensures a + b + c + d + e + f == a + b + (c + d + e + f)
  {
  }

  /** The scheme and the text after `://` of a url built from a scheme without `:`. */
  lemma ParseBuilt(scheme: string, rest: string)
    requires ':' !in scheme
    ensures ParseUrl(scheme + "://" + rest) == Some(SplitAuthority(scheme, rest))
  {
    var url := scheme + "://" + rest;
    SchemeEnd(scheme, rest);
    assert url[..|scheme|] == scheme;
    assert url[|scheme| + 3..] == rest;
  }

  /** With no port in the url, parsing gives back the host and the path. */
  lemma ParseWithoutPort(scheme: string, host: string, path: string)
    requires ':' !in scheme && ':' !in host && '/' !in host
    requires path == [] || path[0] == '/'
    ensures ParseUrl(scheme + "://" + host + path)
      == Some(UrlParts(scheme, host, DefaultPort(scheme), if path == [] then "/" else path))
  {
    assert scheme + "://" + host + path == scheme + "://" + (host + path);
    ParseBuilt(scheme, host + path);
    SplitWithoutPort(scheme, host, path);
  }

  /** With a decimal port in the url, parsing gives back the host, the port and the path. */
  lemma ParseWithPort(scheme: string, host: string, port: nat, path: string)
    requires ':' !in scheme && ':' !in host && '/' !in host
    requires path == [] || path[0] == '/'
    ensures ParseUrl(scheme + "://" + host + ":" + NatToString(port) + path)
      == Some(UrlParts(scheme, host, port, if path == [] then "/" else path))
  {
    var digits := NatToString(port);
    Regroup(scheme, "://", host, ":", digits, path);
    ParseBuilt(scheme, host + ":" + digits + path);
    SplitWithPort(scheme, host, port, path);
  }

  /** With no `:` before the first `/`, the host and the path make up the text after `://` again. */
  lemma ReassembleSplit(scheme: string, rest: string)
    requires '/' in rest && ':' !in rest[..IndexOfChar(rest, '/').value]
    ensures var u := SplitAuthority(scheme, rest);
      u.host + u.path == rest && u.port == DefaultPort(scheme)
  {
    var s := IndexOfChar(rest, '/').value;
    forall i | 0 <= i < s ensures rest[i] != ':' {
      assert rest[..s][i] == rest[i];
    }
    assert rest[..s] + rest[s..] == rest;
  }

  /** With no `:` before the path, the scheme, `://`, the host and the path make up the url again. */
  lemma ReassembleWithoutPort(url: string, u: UrlParts)
    requires ParseUrl(url) == Some(u)
    requires var rest := url[|u.scheme| + 3..];
      '/' in rest && ':' !in rest[..IndexOfChar(rest, '/').value]
    ensures u.scheme + "://" + u.host + u.path == url && u.port == DefaultPort(u.scheme)
  {
    var k := |u.scheme|;
    var rest := url[k + 3..];
    ReassembleSplit(u.scheme, rest);
    assert url[k..k + 3] == "://";
    Rejoin(url, k, u.host, u.path);
  }

  /** A url is its first `k` characters, the three after them and the rest. */
  lemma Rejoin(url: string, k: nat, host: string, path: string)
    requires k + 3 <= |url| && host + path == url[k + 3..]
    ensures url[..k] + url[k..k + 3] + host + path == url
  {
    assert url[..k] + url[k..k + 3] + url[k + 3..] == url;
  }

  // ---------------------------------------------------------------------
  // Request outcomes

  /**
   * What the transport did with a request: no session, a failed connect, a failed
   * request creation, a failed send or receive (each with the system error code), or a
   * response with its status code and body.
   */
  datatype Transport<B> =
    | NoSession
    | ConnectFailed(code: UInt32)
    | OpenFailed(code: UInt32)
    | SendFailed(code: UInt32)
    | Responded(status: UInt32, body: B)

  /** `(int)` of a system code, printed in decimal. */
  function CodeText(code: UInt32): string {
    IntToString(ToInt32(code))
  }

  /** The checks every request makes before it reads a body, each with its error text, in order. */
  function Precheck<B>(url: string, t: Transport<B>): (r: Result<(UInt32, B), string>)
    ensures r.Ok? <==> t.Responded? && ParseUrl(url).Some? && t.status == 200
    ensures r.Ok? ==> r.value == (t.status, t.body)
    ensures t.NoSession? ==> r == Err("HTTP session not initialized")
    ensures !t.NoSession? && ParseUrl(url).None? ==> r == Err("Invalid URL")
    ensures ParseUrl(url).Some? && t.ConnectFailed? ==> r == Err("Connection failed (error " + CodeText(t.code) + ")")
    ensures ParseUrl(url).Some? && t.OpenFailed? ==> r == Err("Request creation failed (error " + CodeText(t.code) + ")")
    ensures ParseUrl(url).Some? && t.SendFailed? ==> r == Err("Request failed (error " + CodeText(t.code) + ")")
    ensures t.Responded? && ParseUrl(url).Some? && t.status != 200 ==> r == Err("HTTP " + CodeText(t.status))
  {
    if t.NoSession? then Err("HTTP session not initialized")
    else if ParseUrl(url).None? then Err("Invalid URL")
    else match t
      case ConnectFailed(code) => Err("Connection failed (error " + CodeText(code) + ")")
      case OpenFailed(code) => Err("Request creation failed (error " + CodeText(code) + ")")
      case SendFailed(code) => Err("Request failed (error " + CodeText(code) + ")")
      case Responded(status, body) =>
        if status != 200 then Err("HTTP " + CodeText(status)) else Ok((status, body))
  }

  /** `get_sync` and `post_sync`: the body on status 200, whatever its length; else the error text. */
  function TextRequest(url: string, t: Transport<string>): (r: Result<string, string>)
    ensures r.Ok? <==> t.Responded? && ParseUrl(url).Some? && t.status == 200
    ensures r.Ok? ==> r.value == t.body
    ensures t.NoSession? ==> r == Err("HTTP session not initialized")
    ensures !t.NoSession? && ParseUrl(url).None? ==> r == Err("Invalid URL")
    ensures ParseUrl(url).Some? && t.ConnectFailed? ==> r == Err("Connection failed (error " + CodeText(t.code) + ")")
    ensures ParseUrl(url).Some? && t.OpenFailed? ==> r == Err("Request creation failed (error " + CodeText(t.code) + ")")
    ensures ParseUrl(url).Some? && t.SendFailed? ==> r == Err("Request failed (error " + CodeText(t.code) + ")")
    ensures t.Responded? && ParseUrl(url).Some? && t.status != 200 ==> r == Err("HTTP " + CodeText(t.status))
  {
    match Precheck(url, t)
    case Ok((_, body)) => Ok(body)
    case Err(e) => Err(e)
  }

  /**
   * `get_binary_sync`: success also needs at least one byte. An empty body fails without
   * an error text (the caller's text is left as it was, empty here).
   */
  function BinaryRequest(url: string, t: Transport<seq<Byte>>): (r: Result<seq<Byte>, string>)
    ensures r.Ok? <==> t.Responded? && ParseUrl(url).Some? && t.status == 200 && |t.body| > 0
    ensures r.Ok? ==> r.value == t.body
    ensures t.Responded? && ParseUrl(url).Some? && t.status == 200 && t.body == [] ==> r == Err("")
    ensures Precheck(url, t).Err? ==> r == Err(Precheck(url, t).error)
    ensures t.Responded? && ParseUrl(url).Some? && t.status != 200 ==> r == Err("HTTP " + CodeText(t.status))
  {
    match Precheck(url, t)
    case Ok((_, body)) => if |body| > 0 then Ok(body) else Err("")
    case Err(e) => Err(e)
  }
}
