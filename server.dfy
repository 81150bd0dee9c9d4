/**
 * The server's request handling, to the extent that it is logic rather than I/O: which
 * handler a request path reaches, the playlist name and the audio path taken out of
 * it, the `Range` arithmetic of the stream handler with the status and lengths it
 * announces, the number of bytes its send loop writes, and the artwork search.
 * `urllib.parse.unquote` is a parameter; the playlist directory is the output files
 * of the generator, a map from path to text.
 */
module Server {
  import opened Common
  import opened Strings
  import opened Generator
  import Manifest
  import Jobs
  import Scheduler
  import Http

  // ---------------------------------------------------------------------
  // Routing

  /** The handler `handle_request` picks, with what it takes out of the path. */
  datatype Route =
    | Status
    | ListPlaylists
    | HashOf(name: string)
    | PlaylistOf(name: string)
    | LegacyHash
    | LegacyPlaylist
    | ArtworkOf(audioPath: string)
    | StreamOf(path: string)
    | Unknown

  /**
   * `handle_request`'s tests, in order: `/status`, `/list`, the `/hash/` prefix, the
   * `/playlist/` prefix, `/hash`, `/playlist`, the `/artwork/` prefix, the `/stream/`
   * prefix; anything else is a 404. A name is the rest of the path, query included.
   */
  function RouteOf(path: string, unquote: string -> string): Route {
    if path == "/status" then Status
    else if path == "/list" then ListPlaylists
    else if "/hash/" <= path then HashOf(path[6..])
    else if "/playlist/" <= path then PlaylistOf(path[10..])
    else if path == "/hash" then LegacyHash
    else if path == "/playlist" then LegacyPlaylist
    else if "/artwork/" <= path then ArtworkOf(ArtworkPath(path[9..], unquote))
    else if "/stream/" <= path then StreamOf(path)
    else Unknown
  }

  /**
   * The `/artwork/` handler's audio path: the text before the first `?`, decoded, with
   * a `/` put in front when it does not start with one.
   */
  function ArtworkPath(encoded: string, unquote: string -> string): (r: string)
    ensures r != [] && r[0] == '/'
  {
    var decoded := unquote(Split(encoded, '?')[0]);
    if "/" <= decoded then decoded else "/" + decoded
  }

  /** Every name after `/hash/` reaches the hash handler with that name, query included. */
  lemma HashRoute(name: string, unquote: string -> string)
    ensures RouteOf("/hash/" + name, unquote) == HashOf(name)
  {
    var p := "/hash/" + name;
    assert p[..6] == "/hash/";
    assert p[6..] == name;
    assert p[1] == 'h';
  }

  /** Every name after `/playlist/` reaches the playlist handler with that name. */
  lemma PlaylistRoute(name: string, unquote: string -> string)
    ensures RouteOf("/playlist/" + name, unquote) == PlaylistOf(name)
  {
    var p := "/playlist/" + name;
    assert p[..10] == "/playlist/";
    assert p[10..] == name;
    assert !("/hash/" <= p) by {
      assert p[1] == 'p';
    }
  }

  /** A playlist name comes back as the path with its prefix taken off. */
  lemma RouteNames(path: string, unquote: string -> string)
    ensures var r := RouteOf(path, unquote);
      (r.HashOf? <==> "/hash/" <= path) && (r.HashOf? ==> path == "/hash/" + r.name)
    ensures var r := RouteOf(path, unquote);
      (r.PlaylistOf? <==> "/playlist/" <= path) && (r.PlaylistOf? ==> path == "/playlist/" + r.name)
  {
    if "/hash/" <= path {
      assert path == "/hash/" + path[6..];
      assert path[1] == 'h';
    }
    if "/playlist/" <= path {
      assert path == "/playlist/" + path[10..];
      assert !("/hash/" <= path) by {
        assert path[1] == 'p';
      }
    }
  }

  /** Only the exact paths reach the status, list and legacy handlers. */
  lemma ExactRoutes(path: string, unquote: string -> string)
    ensures RouteOf(path, unquote) == Status <==> path == "/status"
    ensures RouteOf(path, unquote) == ListPlaylists <==> path == "/list"
    ensures RouteOf(path, unquote) == LegacyHash <==> path == "/hash"
    ensures RouteOf(path, unquote) == LegacyPlaylist <==> path == "/playlist"
  {
    if path == "/hash" {
      assert !("/hash/" <= path) && !("/playlist/" <= path);
    }
    if path == "/playlist" {
      assert path[1] == 'p' && |path| == 9;
    }
  }

  /** The artwork and stream handlers are reached exactly for their prefixes; every other path is a 404. */
  lemma OtherRoutes(path: string, unquote: string -> string)
    ensures RouteOf(path, unquote).ArtworkOf? <==> "/artwork/" <= path
    ensures RouteOf(path, unquote) == StreamOf(path) <==> "/stream/" <= path
    ensures RouteOf(path, unquote) == Unknown <==>
      path != "/status" && path != "/list" && path != "/hash" && path != "/playlist" &&
      !("/hash/" <= path) && !("/playlist/" <= path) && !("/artwork/" <= path) && !("/stream/" <= path)
  {
    if "/artwork/" <= path {
      assert path[1] == 'a';
    }
    if "/stream/" <= path {
      assert path[1] == 's' && path[3] == 'r';
    }
  }

  /** The query is cut off before decoding. */
  lemma ArtworkPathDropsQuery(a: string, query: string, unquote: string -> string)
    requires '?' !in a
    ensures ArtworkPath(a + "?" + query, unquote) == ArtworkPath(a, unquote)
  {
    SplitAppend(a, '?', query);
    SplitNone(a, '?');
  }

  /** The audio path is the decoded text, with a `/` in front only when it lacked one. */
  lemma ArtworkPathDecodes(encoded: string, unquote: string -> string)
    ensures var d := unquote(Split(encoded, '?')[0]);
      var r := ArtworkPath(encoded, unquote);
      (d != [] && d[0] == '/' ==> r == d) && (d == [] || d[0] != '/' ==> r == "/" + d)
  {
  }

  // ---------------------------------------------------------------------
  // The plugin's requests and the generator's files

  /**
   * The urls the plugin builds for a job with a server url `scheme://host:port` reach
   * the hash and playlist handlers with the job's endpoint as the name.
   */
  lemma PluginRequestsRouted(job: Jobs.SyncJob, scheme: string, host: string, port: nat,
                             unquote: string -> string)
    requires job.serverUrl == scheme + "://" + host + ":" + NatToString(port)
    requires ':' !in scheme && ':' !in host && '/' !in host
    ensures var u := Http.ParseUrl(Scheduler.HashUrl(job));
      u.Some? && RouteOf(u.value.path, unquote) == HashOf(job.playlistEndpoint)
    ensures var u := Http.ParseUrl(Scheduler.PlaylistUrl(job));
      u.Some? && RouteOf(u.value.path, unquote) == PlaylistOf(job.playlistEndpoint)
  {
    var hashPath := "/hash/" + job.playlistEndpoint;
    var playlistPath := "/playlist/" + job.playlistEndpoint;
    assert Scheduler.HashUrl(job) == scheme + "://" + host + ":" + NatToString(port) + hashPath;
    assert Scheduler.PlaylistUrl(job) == scheme + "://" + host + ":" + NatToString(port) + playlistPath;
    Http.ParseWithPort(scheme, host, port, hashPath);
    Http.ParseWithPort(scheme, host, port, playlistPath);
    HashRoute(job.playlistEndpoint, unquote);
    PlaylistRoute(job.playlistEndpoint, unquote);
  }

  /** The file a playlist handler reads: `<name>.m3u8`, or `master_playlist.m3u8` for the legacy paths. */
  function PlaylistFile(playlistDir: string, r: Route): (f: Option<string>) {
    match r
    case HashOf(name) => Some(OutputPath(playlistDir, name))
    case PlaylistOf(name) => Some(OutputPath(playlistDir, name))
    case LegacyHash => Some(OutputPath(playlistDir, "master_playlist"))
    case LegacyPlaylist => Some(OutputPath(playlistDir, "master_playlist"))
    case _ => None
  }

  /** What a playlist download sends with status 200; `None` is the 404 of a missing file. */
  function ServedPlaylist(playlistDir: string, path: string, files: map<string, string>,
                          unquote: string -> string): (body: Option<string>)
    ensures body.Some? ==> RouteOf(path, unquote).PlaylistOf? || RouteOf(path, unquote).LegacyPlaylist?
  {
    var r := RouteOf(path, unquote);
    if !(r.PlaylistOf? || r.LegacyPlaylist?) then None
    else
      var f := PlaylistFile(playlistDir, r).value;
      if f in files then Some(files[f]) else None
  }

  /** A download of `/playlist/<name>` sends the text of `<name>.m3u8` when that file exists. */
  lemma ServedFile(playlistDir: string, name: string, files: map<string, string>, unquote: string -> string)
    requires OutputPath(playlistDir, name) in files
    ensures ServedPlaylist(playlistDir, "/playlist/" + name, files, unquote) == Some(files[OutputPath(playlistDir, name)])
  {
    PlaylistRoute(name, unquote);
  }

  /**
   * As written, a request name that starts with `/` replaces the playlist directory:
   * `GET /playlist//etc/x` with the directory `/data` sends `/etc/x.m3u8`, and
   * `/hash//etc/x` hashes it.
   */
  lemma AbsoluteNameEscapes(playlistDir: string, name: string, files: map<string, string>,
                            unquote: string -> string)
    requires "/" <= name && name + ".m3u8" in files
    ensures PlaylistFile(playlistDir, HashOf(name)) == Some(name + ".m3u8")
    ensures ServedPlaylist(playlistDir, "/playlist/" + name, files, unquote) == Some(files[name + ".m3u8"])
  {
    ServedFile(playlistDir, name, files, unquote);
  }

  /**
   * The corrected choice of file: a request name holding a `/` is refused with the 404,
   * so that only `<name>.m3u8` directly inside the playlist directory can be read.
   */
  function SafePlaylistFile(playlistDir: string, r: Route): (f: Option<string>) {
    match r
    case HashOf(name) => if '/' in name then None else Some(OutputPath(playlistDir, name))
    case PlaylistOf(name) => if '/' in name then None else Some(OutputPath(playlistDir, name))
    case _ => PlaylistFile(playlistDir, r)
  }

  /** The corrected playlist download. */
  function SafeServedPlaylist(playlistDir: string, path: string, files: map<string, string>,
                              unquote: string -> string): (body: Option<string>) {
    var r := RouteOf(path, unquote);
    if !(r.PlaylistOf? || r.LegacyPlaylist?) then None
    else match SafePlaylistFile(playlistDir, r)
      case None => None
      case Some(f) => if f in files then Some(files[f]) else None
  }

  /** Corrected, every file read is a `/`-free name joined to the playlist directory. */
  lemma SafeFileInside(playlistDir: string, r: Route)
    ensures var f := SafePlaylistFile(playlistDir, r);
      f.Some? ==> exists n :: '/' !in n && f.value == Join(playlistDir, n)
  {
    var f := SafePlaylistFile(playlistDir, r);
    if f.Some? {
      var name := if r.HashOf? || r.PlaylistOf? then r.name else "master_playlist";
      assert '/' !in name;
      if |name| > 0 {
        assert name[0] != '/';
      }
      assert !("/" <= name);
      assert OutputPath(playlistDir, name) == Join(playlistDir, name + ".m3u8");
      assert '/' !in name + ".m3u8" by {
        forall k | 0 <= k < |name + ".m3u8"| ensures (name + ".m3u8")[k] != '/' {
          if k < |name| {
            assert (name + ".m3u8")[k] == name[k];
          }
        }
      }
      assert f.value == Join(playlistDir, name + ".m3u8");
    }
  }

  /** Corrected, a download sends a file directly inside the playlist directory. */
  lemma SafeServedInside(playlistDir: string, path: string, files: map<string, string>,
                         unquote: string -> string)
    ensures var body := SafeServedPlaylist(playlistDir, path, files, unquote);
      body.Some? ==> exists n :: '/' !in n && Join(playlistDir, n) in files && body.value == files[Join(playlistDir, n)]
  {
    SafeFileInside(playlistDir, RouteOf(path, unquote));
  }

  /** The correction refuses a name with a `/` and changes nothing for any other name. */
  lemma SafeAgreesOnPlainNames(playlistDir: string, name: string, files: map<string, string>,
                               unquote: string -> string)
    ensures '/' in name ==> SafeServedPlaylist(playlistDir, "/playlist/" + name, files, unquote) == None
    ensures '/' !in name ==>
      SafeServedPlaylist(playlistDir, "/playlist/" + name, files, unquote) ==
      ServedPlaylist(playlistDir, "/playlist/" + name, files, unquote)
  {
    PlaylistRoute(name, unquote);
  }

  /**
   * After `process_sources`, the file of a usable source with files holds its playlist
   * text, or else the file it had before, which already read back as that text.
   */
  lemma GeneratedPlaylistStored(sources: seq<Source>, i: nat, outputDir: string, withArt: bool, fs: FileSystem,
                                disk: map<string, string>, unwritable: set<string>)
    requires i < |sources| && DistinctNames(sources) && AlikeNames(sources) && Usable(sources[i])
    requires ScanResult(sources[i].path.value, sources[i].recursive, fs) != []
    requires OutputPath(outputDir, sources[i].name.value) !in unwritable
    ensures var files := ScanResult(sources[i].path.value, sources[i].recursive, fs);
      var after := ProcessFrom(sources, |sources|, Planner(outputDir, withArt, fs), disk, unwritable).disk;
      var out := OutputPath(outputDir, sources[i].name.value);
      var text := PlaylistText(files, withArt, true, fs);
      out in after && (after[out] == text || (out in disk && after[out] == disk[out] && ReadText(disk[out]) == text))
  {
    var src := sources[i];
    var files := ScanResult(src.path.value, src.recursive, fs);
    var plan := Planner(outputDir, withArt, fs);
    StoredTarget(src, outputDir, withArt, fs, files);
    NamesSeparateTargets(sources, outputDir, withArt, fs);
    PlaylistStays(sources, i, |sources|, plan, disk, unwritable);
  }

  /** The plan of a usable source with files. */
  lemma StoredTarget(src: Source, outputDir: string, withArt: bool, fs: FileSystem, files: seq<string>)
    requires Usable(src) && files == ScanResult(src.path.value, src.recursive, fs) && files != []
    ensures Planner(outputDir, withArt, fs)(src) ==
      Some(Target(OutputPath(outputDir, src.name.value), PlaylistText(files, withArt, true, fs)))
  {
  }

  /**
   * After `process_sources` has run over a source, a download of `/playlist/<name>`
   * sends a file in which the plugin's reader finds the `/stream` locations of the
   * source's files, in order.
   */
  lemma GeneratedPlaylistServed(sources: seq<Source>, i: nat, outputDir: string, withArt: bool, fs: FileSystem,
                                disk: map<string, string>, unwritable: set<string>, unquote: string -> string)
    requires i < |sources| && DistinctNames(sources) && AlikeNames(sources) && Usable(sources[i])
    requires ScanResult(sources[i].path.value, sources[i].recursive, fs) != []
    requires OutputPath(outputDir, sources[i].name.value) !in unwritable
    requires var files := ScanResult(sources[i].path.value, sources[i].recursive, fs);
      forall k :: 0 <= k < |files| ==> Manifest.NoBreaks(Stem(files[k]))
    ensures var files := ScanResult(sources[i].path.value, sources[i].recursive, fs);
      var after := ProcessFrom(sources, |sources|, Planner(outputDir, withArt, fs), disk, unwritable).disk;
      var body := ServedPlaylist(outputDir, "/playlist/" + sources[i].name.value, after, unquote);
      body.Some? && Manifest.Entries(body.value) == StreamLines(files, |files|)
  {
    var files := ScanResult(sources[i].path.value, sources[i].recursive, fs);
    var after := ProcessFrom(sources, |sources|, Planner(outputDir, withArt, fs), disk, unwritable).disk;
    var out := OutputPath(outputDir, sources[i].name.value);
    GeneratedPlaylistStored(sources, i, outputDir, withArt, fs, disk, unwritable);
    ServedFile(outputDir, sources[i].name.value, after, unquote);
    ContentEntries(files, withArt, true, Finder(fs));
    if after[out] != PlaylistText(files, withArt, true, fs) {
      EntriesOfReadText(after[out]);
    }
  }

  // ---------------------------------------------------------------------
  // The stream handler's `Range` arithmetic

  /**
   * The `Range` parsing: from the defaults `0` and `file_len - 1`, the header must split
   * at `=` into two parts (the unit is not looked at) and the second at `-` into two;
   * an empty first part is 0, an empty second part is `file_len - 1`, and otherwise
   * each is read with `int`. The first `ValueError` stops the parsing and keeps what
   * was assigned before it.
   */
  function RangeBounds(header: string, fileLen: nat): (int, int) {
    var parts := Split(header, '=');
    if |parts| != 2 then (0, fileLen - 1)
    else
      var halves := Split(parts[1], '-');
      if |halves| != 2 then (0, fileLen - 1)
      else
        var first := if halves[0] == "" then Some(0) else PyInt(halves[0]);
        if first.None? then (0, fileLen - 1)
        else
          var last := if halves[1] == "" then Some(fileLen - 1) else PyInt(halves[1]);
          if last.None? then (first.value, fileLen - 1)
          else (first.value, last.value)
  }

  /** The stream handler's `Range` parsing, one assignment at a time. */
  method ParseRange(header: string, fileLen: nat) returns (start: int, end: int)
    ensures (start, end) == RangeBounds(header, fileLen)
  {
    start, end := 0, fileLen - 1;
    var parts := Split(header, '=');
    if |parts| != 2 {
      return;
    }
    var halves := Split(parts[1], '-');
    if |halves| != 2 {
      return;
    }
    if halves[0] == "" {
      start := 0;
    } else {
      var v := PyInt(halves[0]);
      if v.None? {
        return;
      }
      start := v.value;
    }
    if halves[1] == "" {
      end := fileLen - 1;
    } else {
      var v := PyInt(halves[1]);
      if v.None? {
        return;
      }
      end := v.value;
    }
  }

  lemma SplitTwo(a: string, c: char, b: string)
    requires c !in a && c !in b
    ensures Split(a + [c] + b, c) == [a, b]
  {
    SplitAppend(a, c, b);
    SplitNone(b, c);
  }

  /** A header `unit=first-last` (no further `=` or `-`) splits into `first` and `last`. */
  lemma RangeParts(unit: string, first: string, last: string)
    requires '=' !in unit && '=' !in first && '=' !in last && '-' !in first && '-' !in last
    ensures var h := unit + "=" + first + "-" + last;
      Split(h, '=') == [unit, first + "-" + last] && Split(first + "-" + last, '-') == [first, last]
  {
    var rest := first + "-" + last;
    assert '=' !in rest;
    assert unit + "=" + first + "-" + last == unit + ['='] + rest;
    SplitTwo(unit, '=', rest);
    SplitTwo(first, '-', last);
  }

  lemma DigitsPlain(n: nat)
    ensures '=' !in NatToString(n) && '-' !in NatToString(n)
  {
    var d := NatToString(n);
    assert forall i :: 0 <= i < |d| ==> IsDigit(d[i]);
  }

  /** `bytes=a-b` gives `a` and `b`, whatever the file length. */
  lemma RangeOfNumbers(unit: string, a: nat, b: nat, fileLen: nat)
    requires '=' !in unit
    ensures RangeBounds(unit + "=" + NatToString(a) + "-" + NatToString(b), fileLen) == (a, b)
  {
    DigitsPlain(a);
    DigitsPlain(b);
    RangeParts(unit, NatToString(a), NatToString(b));
    PyIntOfNatToString(a);
    PyIntOfNatToString(b);
  }

  /** `bytes=a-` runs from `a` to the last byte. */
  lemma RangeOpenEnd(unit: string, a: nat, fileLen: nat)
    requires '=' !in unit
    ensures RangeBounds(unit + "=" + NatToString(a) + "-", fileLen) == (a, fileLen - 1)
  {
    DigitsPlain(a);
    RangeParts(unit, NatToString(a), "");
    assert unit + "=" + NatToString(a) + "-" + "" == unit + "=" + NatToString(a) + "-";
    PyIntOfNatToString(a);
  }

  /**
   * `bytes=-n` runs from 0 to `n`: the empty first part is 0. A suffix range of
   * section 2.1 of RFC 7233 would be the last `n` bytes instead.
   */
  lemma RangeSuffixFromStart(unit: string, n: nat, fileLen: nat)
    requires '=' !in unit
    ensures RangeBounds(unit + "=-" + NatToString(n), fileLen) == (0, n)
  {
    DigitsPlain(n);
    RangeParts(unit, "", NatToString(n));
    assert unit + "=" + "" + "-" + NatToString(n) == unit + "=-" + NatToString(n);
    PyIntOfNatToString(n);
  }

  /** A last part `int` rejects keeps the start already read and the default end. */
  lemma RangeKeepsStart(unit: string, a: nat, junk: string, fileLen: nat)
    requires '=' !in unit && '=' !in junk && '-' !in junk
    requires junk != [] && !IsPySpace(junk[0]) && !IsDigit(junk[0]) && junk[0] != '+'
    ensures RangeBounds(unit + "=" + NatToString(a) + "-" + junk, fileLen) == (a, fileLen - 1)
  {
    DigitsPlain(a);
    RangeParts(unit, NatToString(a), junk);
    PyIntOfNatToString(a);
    PyIntRejects(junk);
  }

  /** A header without `=` is ignored: the whole file. */
  lemma RangeWithoutUnit(header: string, fileLen: nat)
    requires '=' !in header
    ensures RangeBounds(header, fileLen) == (0, fileLen - 1)
  {
    SplitNone(header, '=');
  }

  /** The start is never negative: the first part holds no `-`. */
  lemma RangeStartNatural(header: string, fileLen: nat)
    ensures RangeBounds(header, fileLen).0 >= 0
  {
    var parts := Split(header, '=');
    if |parts| == 2 {
      var halves := Split(parts[1], '-');
      if |halves| == 2 && halves[0] != "" && PyInt(halves[0]).Some? {
        PyIntUnsigned(halves[0]);
      }
    }
  }

  /** A `Content-Range` header: a satisfied range, or the `*` form of an unsatisfiable one. */
  datatype ContentRange = Satisfied(first: int, last: int, complete: nat) | Unsatisfied(complete: nat)

  /** The header's text: `bytes first-last/len`, or `bytes ` then `*` then `/len`. */
  function ContentRangeText(c: ContentRange): string {
    match c
    case Satisfied(first, last, complete) =>
      "bytes " + IntToString(first) + "-" + IntToString(last) + "/" + NatToString(complete)
    case Unsatisfied(complete) => "bytes *" + "/" + NatToString(complete)
  }

  /**
   * The head of a stream response: the status, the `Content-Range` and `Content-Length`
   * headers, whether `Connection: close` is sent, and a `Content-Range` line that is
   * written after the head has ended (and after any error page) instead of inside it.
   */
  datatype Reply = Reply(status: nat, contentRange: Option<ContentRange>, contentLength: Option<int>,
                         close: bool, trailing: Option<ContentRange>)

  /**
   * The page `send_error` of Python's `http.server` writes: its HTML template filled
   * with the code in decimal, the message and the explanation. `html.escape` changes
   * nothing in the texts used here, which hold no `&`, `<` or `>`.
   */
  function ErrorPage(code: string, message: string, explain: string): string {
    "<!DOCTYPE HTML>\n<html lang=\"en\">\n    <head>\n        <meta charset=\"utf-8\">\n"
    + "        <title>Error response</title>\n    </head>\n    <body>\n"
    + "        <h1>Error response</h1>\n        <p>Error code: " + code + "</p>\n"
    + "        <p>Message: " + message + ".</p>\n"
    + "        <p>Error code explanation: " + code + " - " + explain + ".</p>\n"
    + "    </body>\n</html>\n"
  }

  /** The `Content-Length` `send_error` gives the stream handler's 416. */
  const RangePageLength: nat := 351

  /** It is the length of the page for 416 with the handler's message and the standard explanation. */
  lemma RangePageHasLength()
    ensures |ErrorPage("416", "Requested Range Not Satisfiable", "Cannot satisfy request range")| == RangePageLength
  {
  }

  /** The part of the file the stream handler works with. */
  datatype Span = Span(start: int, end: int)

  /** `if range_header:`: a header that is present and not empty. */
  predicate Ranged(range: Option<string>) {
    range.Some? && range.value != ""
  }

  /** The whole file, or the parsed range. */
  function StreamSpan(range: Option<string>, fileLen: nat): (span: Span)
    ensures span.start >= 0
  {
    if !Ranged(range) then Span(0, fileLen - 1)
    else
      RangeStartNatural(range.value, fileLen);
      Span(RangeBounds(range.value, fileLen).0, RangeBounds(range.value, fileLen).1)
  }

  /**
   * The stream handler's headers as written, over its span: without a range 200; with
   * one, 206 with the range when the start lies inside the file, the length being
   * `end - start + 1` in both cases. A start at or past the end is `send_error(416)`,
   * which closes the connection and ends the head with its page's length; the
   * `Content-Range` of the `*` form the handler sends next comes after the page.
   */
  function Announce(ranged: bool, span: Span, fileLen: nat): Reply {
    if !ranged then Reply(200, None, Some(span.end - span.start + 1), false, None)
    else if span.start >= fileLen then Reply(416, None, Some(RangePageLength), true, Some(Unsatisfied(fileLen)))
    else Reply(206, Some(Satisfied(span.start, span.end, fileLen)), Some(span.end - span.start + 1), false, None)
  }

  /** The stream handler's response headers for a `Range` header and a file length. */
  function StreamReply(range: Option<string>, fileLen: nat): Reply {
    Announce(Ranged(range), StreamSpan(range, fileLen), fileLen)
  }

  /** With a header, the reply is the announcement over the header's span. */
  lemma StreamReplyOfSpan(range: Option<string>, fileLen: nat, span: Span)
    requires Ranged(range) && StreamSpan(range, fileLen) == span
    ensures StreamReply(range, fileLen) == Announce(true, span, fileLen)
  {
  }

  /**
   * The `Content-Range` text written with a range: `bytes start-end/len` over the parsed
   * span in the head of the 206; with the 416, `bytes *` and `/len`, but only after the
   * head, which `send_error` has already ended.
   */
  lemma RangeHeaderText(range: Option<string>, fileLen: nat)
    requires Ranged(range)
    ensures var r := StreamReply(range, fileLen);
      var span := StreamSpan(range, fileLen);
      if span.start >= fileLen then
        r.contentRange.None? && r.trailing.Some? &&
        ContentRangeText(r.trailing.value) == "bytes */" + NatToString(fileLen)
      else
        r.trailing.None? && r.contentRange.Some? &&
        ContentRangeText(r.contentRange.value) ==
          "bytes " + IntToString(span.start) + "-" + IntToString(span.end) + "/" + NatToString(fileLen)
  {
    StreamReplyOfSpan(range, fileLen, StreamSpan(range, fileLen));
  }

  /** The status follows the header and the start; without a range the length is the file's. */
  lemma StreamStatus(range: Option<string>, fileLen: nat)
    ensures var r := StreamReply(range, fileLen);
      var span := StreamSpan(range, fileLen);
      (r.status == 200 <==> !Ranged(range)) &&
      (r.status == 416 <==> Ranged(range) && span.start >= fileLen) &&
      (r.status == 200 ==> r.contentLength == Some(fileLen)) &&
      (r.status != 416 ==> r.contentLength == Some(span.end - span.start + 1) && !r.close && r.trailing.None?) &&
      (r.status == 416 ==> r.contentLength == Some(RangePageLength) && r.close && r.contentRange.None? &&
                           r.trailing == Some(Unsatisfied(fileLen)))
  {
    AnnounceStatus(Ranged(range), StreamSpan(range, fileLen), fileLen);
  }

  lemma AnnounceStatus(ranged: bool, span: Span, fileLen: nat)
    requires !ranged ==> span == Span(0, fileLen - 1)
    ensures var r := Announce(ranged, span, fileLen);
      (r.status == 200 <==> !ranged) &&
      (r.status == 416 <==> ranged && span.start >= fileLen) &&
      (r.status == 200 ==> r.contentLength == Some(fileLen)) &&
      (r.status != 416 ==> r.contentLength == Some(span.end - span.start + 1) && !r.close && r.trailing.None?) &&
      (r.status == 416 ==> r.contentLength == Some(RangePageLength) && r.close && r.contentRange.None? &&
                           r.trailing == Some(Unsatisfied(fileLen)))
  {
  }

  /** The send loop's count: from `start`, `end - start + 1` bytes or up to the end of the file. */
  function BytesSent(start: nat, end: int, fileLen: nat): (n: nat)
    ensures n <= if fileLen >= start then fileLen - start else 0
  {
    var wanted := end - start + 1;
    var available := if fileLen >= start then fileLen - start else 0;
    if wanted <= 0 then 0 else if wanted < available then wanted else available
  }

  const BlockSize: nat := 64 * 1024

  /**
   * The send loop: blocks of at most 64 KiB from `start` on, until `end - start + 1`
   * bytes have gone out or a read yields nothing. A failing write is not modelled.
   */
  method SendBody(start: nat, end: int, fileLen: nat) returns (sent: nat)
    ensures sent == BytesSent(start, end, fileLen)
  {
    var pos := start;
    var left := end - start + 1;
    sent := 0;
    while left > 0
      invariant pos == start + sent
      invariant left == end - start + 1 - sent
      invariant left >= 0 || sent == 0
      invariant sent <= if fileLen >= start then fileLen - start else 0
      decreases left
    {
      var available := if fileLen >= pos then fileLen - pos else 0;
      var n := if left < BlockSize then left else BlockSize;
      if available < n {
        n := available;
      }
      if n == 0 {
        break;
      }
      sent := sent + n;
      left := left - n;
      pos := pos + n;
    }
  }

  /** The span of `bytes=a-b` is `a` to `b`. */
  lemma SpanOfNumbers(unit: string, first: nat, last: nat, fileLen: nat)
    requires '=' !in unit
    ensures StreamSpan(Some(unit + "=" + NatToString(first) + "-" + NatToString(last)), fileLen) == Span(first, last)
  {
    var h := unit + "=" + NatToString(first) + "-" + NatToString(last);
    assert |h| > 0;
    RangeOfNumbers(unit, first, last, fileLen);
  }

  /**
   * As written, a range that ends past the file announces more bytes than the send
   * loop can write: `bytes=0-99` on a 10-byte file announces 100.
   */
  lemma OverlongContentLength(unit: string, first: nat, last: nat, fileLen: nat)
    requires '=' !in unit && first < fileLen <= last
    ensures var r := StreamReply(Some(unit + "=" + NatToString(first) + "-" + NatToString(last)), fileLen);
      r.status == 206 && r.contentLength.Some? && r.contentLength.value == last - first + 1 &&
      BytesSent(first, last, fileLen) == fileLen - first < last - first + 1
  {
    var h := unit + "=" + NatToString(first) + "-" + NatToString(last);
    SpanOfNumbers(unit, first, last, fileLen);
    StreamReplyOfSpan(Some(h), fileLen, Span(first, last));
    AnnounceStatus(true, Span(first, last), fileLen);
  }

  /** As written, a range whose end is before its start announces a negative length: `bytes=5-3` gives -1. */
  lemma NegativeContentLength(unit: string, first: nat, last: nat, fileLen: nat)
    requires '=' !in unit && first < fileLen && last + 1 < first
    ensures var r := StreamReply(Some(unit + "=" + NatToString(first) + "-" + NatToString(last)), fileLen);
      r.status == 206 && r.contentLength.Some? && r.contentLength.value == last - first + 1 &&
      last - first + 1 < 0 == BytesSent(first, last, fileLen)
  {
    var h := unit + "=" + NatToString(first) + "-" + NatToString(last);
    SpanOfNumbers(unit, first, last, fileLen);
    StreamReplyOfSpan(Some(h), fileLen, Span(first, last));
    AnnounceStatus(true, Span(first, last), fileLen);
  }

  /**
   * The span section 2.1 of RFC 7233 asks for, from the parsed one: an end at or past
   * the file is the last byte, and a range whose end is before its start is ignored.
   */
  function Clamp(ranged: bool, span: Span, fileLen: nat): (r: Span) {
    if !ranged || span.start >= fileLen then span
    else if span.end < span.start then Span(0, fileLen - 1)
    else Span(span.start, if span.end < fileLen then span.end else fileLen - 1)
  }

  /**
   * The headers over the clamped span; a reversed range gets the whole file with 200,
   * and the 416 carries its `Content-Range` in its head.
   */
  function CorrectedAnnounce(ranged: bool, span: Span, fileLen: nat): Reply {
    var c := Clamp(ranged, span, fileLen);
    if !ranged then Reply(200, None, Some(c.end - c.start + 1), false, None)
    else if span.start >= fileLen then Reply(416, Some(Unsatisfied(fileLen)), Some(RangePageLength), true, None)
    else if span.end < span.start then Reply(200, None, Some(c.end - c.start + 1), false, None)
    else Reply(206, Some(Satisfied(c.start, c.end, fileLen)), Some(c.end - c.start + 1), false, None)
  }

  /** The corrected stream handler's headers. */
  function CorrectedStreamReply(range: Option<string>, fileLen: nat): Reply {
    CorrectedAnnounce(Ranged(range), StreamSpan(range, fileLen), fileLen)
  }

  /**
   * Corrected, the announced length is what the send loop writes over the clamped span,
   * and a 206 span lies inside the file.
   */
  lemma CorrectedLengthIsSent(ranged: bool, span: Span, fileLen: nat)
    requires span.start >= 0 && (!ranged ==> span == Span(0, fileLen - 1))
    ensures var r := CorrectedAnnounce(ranged, span, fileLen);
      var c := Clamp(ranged, span, fileLen);
      r.status != 416 ==> 0 <= c.start && r.contentLength == Some(BytesSent(c.start, c.end, fileLen))
    ensures var r := CorrectedAnnounce(ranged, span, fileLen);
      var c := Clamp(ranged, span, fileLen);
      r.status == 206 ==> 0 <= c.start <= c.end < fileLen
  {
  }

  /**
   * As written, a range that starts past the file gets a 416 whose head has no
   * `Content-Range`: `bytes=20-30` on a 10-byte file sends the 351-byte error page and
   * then a `Content-Range` line (`bytes *` then `/10`) after it, where the client expects nothing.
   */
  lemma LateContentRange(unit: string, first: nat, last: nat, fileLen: nat)
    requires '=' !in unit && fileLen <= first
    ensures var r := StreamReply(Some(unit + "=" + NatToString(first) + "-" + NatToString(last)), fileLen);
      r.status == 416 && r.contentRange.None? && r.contentLength == Some(RangePageLength) && r.close &&
      r.trailing.Some? && ContentRangeText(r.trailing.value) == "bytes */" + NatToString(fileLen)
  {
    var h := unit + "=" + NatToString(first) + "-" + NatToString(last);
    assert |h| > 0;
    SpanOfNumbers(unit, first, last, fileLen);
    StreamStatus(Some(h), fileLen);
    RangeHeaderText(Some(h), fileLen);
  }

  /**
   * Corrected, the 416 carries its `Content-Range` (`bytes *` then `/len`) in its head,
   * as section 4.4 of RFC 7233 asks, and nothing is written after the page.
   */
  lemma CorrectedUnsatisfiable(ranged: bool, span: Span, fileLen: nat)
    requires ranged && span.start >= fileLen
    ensures var r := CorrectedAnnounce(ranged, span, fileLen);
      r.status == 416 && r.contentRange.Some? && r.trailing.None? && r.close &&
      ContentRangeText(r.contentRange.value) == "bytes */" + NatToString(fileLen) &&
      r.contentLength == Some(RangePageLength)
  {
  }

  /** Where the range lies inside the file and is not reversed, the correction changes nothing. */
  lemma CorrectionAgreesInside(ranged: bool, span: Span, fileLen: nat)
    requires span.start <= span.end < fileLen
    ensures CorrectedAnnounce(ranged, span, fileLen) == Announce(ranged, span, fileLen)
  {
  }

  // ---------------------------------------------------------------------
  // The artwork handler

  /**
   * The `/artwork/` handler: the audio path must be a file; then `find_artwork_in_directory`
   * on its directory, which searches as the generator's `find_artwork` does.
   * `None` is the 404.
   */
  function ArtworkServed(audioPath: string, fs: FileSystem): (art: Option<string>) {
    if audioPath in fs.files then FirstArtwork(Parent(audioPath), fs) else None
  }

  /** Artwork is served only for an existing audio file, and it is a listed file. */
  lemma ArtworkServedListed(audioPath: string, fs: FileSystem)
    ensures ArtworkServed(audioPath, fs).Some? ==>
      audioPath in fs.files && ArtworkServed(audioPath, fs).value in fs.files
  {
    ArtworkListed(Parent(audioPath), fs);
  }
}
