/**
 * The plugin's reading of an M3U8 manifest (sync_manager::parse_m3u8) and the
 * mapping of the server's relative `/stream/` paths onto the job's server url
 * (the path loop of sync_manager::update_playlist).
 *
 * The specification has two layers: `Lines` cuts the text at every run of
 * '\n' / '\r', and `Keep` decides what one line contributes (nothing for an
 * empty line, a comment or a line that is blank after trimming; otherwise the
 * trimmed line). `ParseM3u8` is the source's pointer scan, proved to compute
 * `Entries`, the kept lines in order.
 */
module Manifest {
  import opened Strings

  predicate IsBreak(c: char) { c == '\n' || c == '\r' }

  predicate NoBreaks(s: string) { forall i :: 0 <= i < |s| ==> !IsBreak(s[i]) }

  predicate AllBreaks(s: string) { forall i :: 0 <= i < |s| ==> IsBreak(s[i]) }

  /** Where the line starting at `p` ends: the first break at or after `p`, or the end of `s`. */
  function LineEnd(s: string, p: nat): (e: nat)
    requires p <= |s|
    ensures p <= e <= |s|
    ensures e == |s| || IsBreak(s[e])
    decreases |s| - p
  {
    if p == |s| || IsBreak(s[p]) then p else LineEnd(s, p + 1)
  }

  /** Where the run of breaks starting at `e` ends: the first non-break at or after `e`, or the end. */
  function BreaksEnd(s: string, e: nat): (q: nat)
    requires e <= |s|
    ensures e <= q <= |s|
    ensures q == |s| || !IsBreak(s[q])
    decreases |s| - e
  {
    if e < |s| && IsBreak(s[e]) then BreaksEnd(s, e + 1) else e
  }

  /** The raw lines of `s` from position `p` on: the text between runs of line breaks. */
  function Lines(s: string, p: nat): seq<string>
    requires p <= |s|
    decreases |s| - p
  {
    if p == |s| then []
    else
      var e := LineEnd(s, p);
      [s[p..e]] + Lines(s, BreaksEnd(s, e))
  }

  /** The trimming the source applies to a line: trailing spaces first, then trailing tabs. */
  function Trim(line: string): (r: string)
    ensures r <= line
    ensures r == [] || r[|r| - 1] != '\t'
  {
    TrimTrailing(TrimTrailing(line, ' '), '\t')
  }

  /** What one line contributes to the result: nothing, or the trimmed line. */
  function Keep(line: string): (r: seq<string>)
    ensures |r| <= 1
    ensures r != [] <==> line != [] && line[0] != '#' && Trim(line) != []
    ensures r != [] ==> r[0] == Trim(line)
  {
    if line != [] && line[0] != '#' && Trim(line) != [] then [Trim(line)] else []
  }

  /** What a sequence of lines contributes, line by line, in order. */
  function KeepAll(lines: seq<string>): seq<string> {
    if lines == [] then [] else Keep(lines[0]) + KeepAll(lines[1..])
  }

  /** The paths a manifest lists, in order, duplicates kept. */
  function Entries(s: string): seq<string> {
    KeepAll(Lines(s, 0))
  }

  /** The source's two-pointer scan over the manifest text. */
  method ParseM3u8(content: string) returns (paths: seq<string>)
    ensures paths == Entries(content)
  {
    paths := [];
    var ptr := 0;
    while ptr < |content|
      invariant 0 <= ptr <= |content|
      invariant paths + KeepAll(Lines(content, ptr)) == Entries(content)
      decreases |content| - ptr
    {
      ghost var done := paths;
      var lineEnd := ScanLine(content, ptr);
      var kept := [];
      if lineEnd > ptr && content[ptr] != '#' {
        var line := content[ptr..lineEnd];
        line := TrimTrailing(line, ' ');
        line := TrimTrailing(line, '\t');
        if |line| > 0 {
          kept := [line];
        }
      }
      assert kept == Keep(content[ptr..lineEnd]);
      paths := paths + kept;
      var next := SkipLineBreaks(content, lineEnd);
      KeepAllCons(content[ptr..lineEnd], Lines(content, next));
      AppendAssoc(done, kept, KeepAll(Lines(content, next)));
      ptr := next;
    }
  }

  /** The inner loop that advances `line_end` to the next '\n' or '\r'. */
  method ScanLine(content: string, ptr: nat) returns (lineEnd: nat)
    requires ptr <= |content|
    ensures lineEnd == LineEnd(content, ptr)
  {
    lineEnd := ptr;
    while lineEnd < |content| && content[lineEnd] != '\n' && content[lineEnd] != '\r'
      invariant ptr <= lineEnd <= |content|
      invariant LineEnd(content, lineEnd) == LineEnd(content, ptr)
    {
      lineEnd := lineEnd + 1;
    }
  }

  /** The inner loop that moves `ptr` past a run of line endings. */
  method SkipLineBreaks(content: string, lineEnd: nat) returns (ptr: nat)
    requires lineEnd <= |content|
    ensures ptr == BreaksEnd(content, lineEnd)
  {
    ptr := lineEnd;
    while ptr < |content| && (content[ptr] == '\n' || content[ptr] == '\r')
      invariant lineEnd <= ptr <= |content|
      invariant BreaksEnd(content, ptr) == BreaksEnd(content, lineEnd)
    {
      ptr := ptr + 1;
    }
  }

  lemma AppendAssoc<T>(a: seq<T>, b: seq<T>, c: seq<T>)
    ensures (a + b) + c == a + (b + c)
  {
  }

  lemma KeepAllCons(line: string, rest: seq<string>)
    ensures KeepAll([line] + rest) == Keep(line) + KeepAll(rest)
  {
    assert ([line] + rest)[0] == line && ([line] + rest)[1..] == rest;
  }

  lemma {:induction false} KeepAllAppend(a: seq<string>, b: seq<string>)
    ensures KeepAll(a + b) == KeepAll(a) + KeepAll(b)
  {
    if a == [] {
      assert a + b == b;
    } else {
      assert a + b == [a[0]] + (a[1..] + b);
      KeepAllCons(a[0], a[1..] + b);
      KeepAllAppend(a[1..], b);
      AppendAssoc(Keep(a[0]), KeepAll(a[1..]), KeepAll(b));
    }
  }

  // ---------------------------------------------------------------------
  // Properties of the line splitting

  lemma {:induction false} LineEndAt(s: string, p: nat, e: nat)
    requires p <= e <= |s|
    requires forall k :: p <= k < e ==> !IsBreak(s[k])
    requires e == |s| || IsBreak(s[e])
    ensures LineEnd(s, p) == e
    decreases e - p
  {
    if p < e {
      LineEndAt(s, p + 1, e);
    }
  }

  lemma {:induction false} LineEndNoBreaks(s: string, p: nat)
    requires p <= |s|
    ensures forall k :: p <= k < LineEnd(s, p) ==> !IsBreak(s[k])
    decreases |s| - p
  {
    if p < |s| && !IsBreak(s[p]) {
      LineEndNoBreaks(s, p + 1);
    }
  }

  lemma {:induction false} BreaksEndAt(s: string, e: nat, q: nat)
    requires e <= q <= |s|
    requires forall k :: e <= k < q ==> IsBreak(s[k])
    ensures BreaksEnd(s, e) == BreaksEnd(s, q)
    decreases q - e
  {
    if e < q {
      BreaksEndAt(s, e + 1, q);
    }
  }

  lemma {:induction false} BreaksEndAllBreaks(s: string, e: nat)
    requires e <= |s|
    ensures forall k :: e <= k < BreaksEnd(s, e) ==> IsBreak(s[k])
    decreases |s| - e
  {
    if e < |s| && IsBreak(s[e]) {
      BreaksEndAllBreaks(s, e + 1);
    }
  }

  /** `b` is what `s` holds from position `d` on. */
  predicate SuffixAt(s: string, d: nat, b: string) {
    |s| == d + |b| && forall k :: 0 <= k < |b| ==> s[d + k] == b[k]
  }

  lemma LineEndShift(s: string, d: nat, b: string, p: nat, at: nat)
    requires SuffixAt(s, d, b) && p <= |b| && at == d + p
    ensures LineEnd(s, at) == d + LineEnd(b, p)
  {
    var e := LineEnd(b, p);
    LineEndNoBreaks(b, p);
    assert forall k :: at <= k < d + e ==> s[k] == b[k - d];
    LineEndAt(s, at, d + e);
  }

  lemma BreaksEndShift(s: string, d: nat, b: string, e: nat, at: nat)
    requires SuffixAt(s, d, b) && e <= |b| && at == d + e
    ensures BreaksEnd(s, at) == d + BreaksEnd(b, e)
  {
    var q := BreaksEnd(b, e);
    BreaksEndAllBreaks(b, e);
    assert forall k :: at <= k < d + q ==> s[k] == b[k - d];
    BreaksEndAt(s, at, d + q);
    assert d + q == |s| || s[d + q] == b[q];
  }

  lemma SliceShift(s: string, d: nat, b: string, p: nat, e: nat)
    requires SuffixAt(s, d, b) && p <= e <= |b|
    ensures s[d + p..d + e] == b[p..e]
  {
  }

  lemma LinesStep(s: string, p: nat, e: nat, q: nat, t: string, p': nat, e': nat, q': nat)
    requires p < |s| && p' < |t|
    requires LineEnd(s, p) == e && BreaksEnd(s, e) == q
    requires LineEnd(t, p') == e' && BreaksEnd(t, e') == q'
    requires s[p..e] == t[p'..e']
    requires Lines(s, q) == Lines(t, q')
    ensures Lines(s, p) == Lines(t, p')
  {
  }

  /** The lines after position `d` are the lines of what follows `d`. */
  lemma {:induction false} LinesShift(s: string, d: nat, b: string, p: nat)
    requires SuffixAt(s, d, b) && p <= |b|
    ensures Lines(s, d + p) == Lines(b, p)
    decreases |b| - p
  {
    if p < |b| {
      var e := LineEnd(b, p);
      var q := BreaksEnd(b, e);
      LineEndShift(s, d, b, p, d + p);
      BreaksEndShift(s, d, b, e, d + e);
      LinesShift(s, d, b, q);
      SliceShift(s, d, b, p, e);
      LinesStep(s, d + p, d + e, d + q, b, p, e, q);
    } else {
      assert d + p == |s|;
    }
  }

  /** A first line `s[0..e]`, line breaks up to `m`, and then `rest`. */
  lemma LinesSplit(s: string, e: nat, m: nat, rest: string)
    requires e < m && SuffixAt(s, m, rest)
    requires forall k :: 0 <= k < e ==> !IsBreak(s[k])
    requires forall k :: e <= k < m ==> IsBreak(s[k])
    ensures Lines(s, 0) == [s[0..e]] + Lines(rest, BreaksEnd(rest, 0))
  {
    LineEndAt(s, 0, e);
    BreaksEndAt(s, e, m);
    var q := BreaksEnd(rest, 0);
    BreaksEndShift(s, m, rest, 0, m);
    LinesShift(s, m, rest, q);
  }

  /** A line, a nonempty run of line breaks of any kind, and the rest. */
  lemma LinesLine(line: string, breaks: string, rest: string)
    requires NoBreaks(line)
    requires breaks != [] && AllBreaks(breaks)
    ensures Lines(line + breaks + rest, 0) == [line] + Lines(rest, BreaksEnd(rest, 0))
  {
    var s := line + breaks + rest;
    var m := |line| + |breaks|;
    assert forall k :: 0 <= k < |line| ==> s[k] == line[k];
    assert forall k :: |line| <= k < m ==> s[k] == breaks[k - |line|];
    assert SuffixAt(s, m, rest);
    LinesSplit(s, |line|, m, rest);
    assert s[0..|line|] == line;
  }

  /** Leading line breaks contribute nothing. */
  lemma KeepAllSkipBreaks(s: string)
    ensures KeepAll(Lines(s, BreaksEnd(s, 0))) == KeepAll(Lines(s, 0))
  {
    if s != [] && IsBreak(s[0]) {
      assert LineEnd(s, 0) == 0;
      assert Lines(s, 0) == [""] + Lines(s, BreaksEnd(s, 0));
      KeepAllCons("", Lines(s, BreaksEnd(s, 0)));
    }
  }

  /** A line followed by a run of line breaks, then the rest of the manifest. */
  lemma EntriesLine(line: string, breaks: string, rest: string)
    requires NoBreaks(line)
    requires breaks != [] && AllBreaks(breaks)
    ensures Entries(line + (breaks + rest)) == Keep(line) + Entries(rest)
  {
    assert line + (breaks + rest) == line + breaks + rest;
    LinesLine(line, breaks, rest);
    KeepAllCons(line, Lines(rest, BreaksEnd(rest, 0)));
    KeepAllSkipBreaks(rest);
  }

  /** Text without a line break is a single line. */
  lemma EntriesSingleLine(line: string)
    requires NoBreaks(line)
    ensures Entries(line) == Keep(line)
  {
    if line != [] {
      LineEndAt(line, 0, |line|);
      assert BreaksEnd(line, |line|) == |line|;
      assert line[0..|line|] == line;
      assert Lines(line, 0) == [line] + [];
      KeepAllCons(line, []);
    }
  }

  /** The lines of `lines`, each followed by a newline (the generator's output shape). */
  function Terminated(lines: seq<string>): string {
    if lines == [] then [] else lines[0] + "\n" + Terminated(lines[1..])
  }

  /** Reading newline-terminated lines keeps exactly what `Keep` keeps, line by line, in order. */
  lemma {:induction false} EntriesTerminated(lines: seq<string>)
    requires forall i :: 0 <= i < |lines| ==> NoBreaks(lines[i])
    ensures Entries(Terminated(lines)) == KeepAll(lines)
  {
    if lines != [] {
      assert Terminated(lines) == lines[0] + ("\n" + Terminated(lines[1..]));
      EntriesLine(lines[0], "\n", Terminated(lines[1..]));
      EntriesTerminated(lines[1..]);
    }
  }

  /** Every raw line is free of line breaks. */
  lemma {:induction false} LinesNoBreaks(s: string, p: nat)
    requires p <= |s|
    ensures forall l :: l in Lines(s, p) ==> NoBreaks(l)
    decreases |s| - p
  {
    if p < |s| {
      var e := LineEnd(s, p);
      LineEndNoBreaks(s, p);
      LinesNoBreaks(s, BreaksEnd(s, e));
      var l := s[p..e];
      assert forall i :: 0 <= i < |l| ==> l[i] == s[p + i];
    }
  }

  /** The shape of every entry: nonempty, not a comment, break-free, no trailing tab. */
  predicate EntryShaped(e: string) {
    e != [] && e[0] != '#' && NoBreaks(e) && e[|e| - 1] != '\t'
  }

  /** What is kept of a break-free line has the entry shape. */
  lemma KeepShaped(line: string)
    requires NoBreaks(line)
    ensures forall e :: e in Keep(line) ==> EntryShaped(e)
  {
    if Keep(line) != [] {
      var t := Trim(line);
      assert t[0] == line[0];
      assert forall i :: 0 <= i < |t| ==> t[i] == line[i];
      assert EntryShaped(t);
    }
  }

  /** What is kept from break-free lines is nonempty, trimmed, break-free and not a comment. */
  lemma {:induction false} KeepAllShape(lines: seq<string>)
    requires forall l :: l in lines ==> NoBreaks(l)
    ensures forall e :: e in KeepAll(lines) ==> EntryShaped(e)
  {
    if lines != [] {
      assert forall l :: l in lines[1..] ==> l in lines;
      KeepAllShape(lines[1..]);
      assert lines[0] in lines;
      KeepShaped(lines[0]);
      assert KeepAll(lines) == Keep(lines[0]) + KeepAll(lines[1..]);
    }
  }

  /** Every entry is a nonempty, trimmed line that is not a comment. */
  lemma EntriesShape(s: string)
    ensures forall e :: e in Entries(s) ==>
      e != [] && e[0] != '#' && NoBreaks(e) && e[|e| - 1] != '\t'
  {
    LinesNoBreaks(s, 0);
    KeepAllShape(Lines(s, 0));
  }

  /** Spaces before a final tab survive: only the trailing spaces of the raw line go. */
  lemma TrimOrder()
    ensures Trim("a \t") == "a "
    ensures Trim("a\t ") == "a"
  {
    assert TrimTrailing("a \t", ' ') == "a \t";
    assert "a \t"[..2] == "a ";
    assert "a\t "[..2] == "a\t";
    assert "a\t"[..1] == "a";
  }

  // ---------------------------------------------------------------------
  // Path mapping

  /** A path the generator wrote relative to the server, `/stream/...`, is put after the server url. */
  predicate IsStreamPath(path: string) { "/stream/" <= path }

  function Resolve(serverUrl: string, path: string): (r: string)
    ensures IsStreamPath(path) ==> r == serverUrl + path
    ensures !IsStreamPath(path) ==> r == path
  {
    if IsStreamPath(path) then serverUrl + path else path
  }

  /** Every path resolved, in order. */
  function ResolveAll(serverUrl: string, paths: seq<string>): (r: seq<string>)
    ensures |r| == |paths|
    ensures forall i :: 0 <= i < |paths| ==> r[i] == Resolve(serverUrl, paths[i])
  {
    seq(|paths|, i requires 0 <= i < |paths| => Resolve(serverUrl, paths[i]))
  }

  /** The url-mapping loop of update_playlist, rewriting each entry in place. */
  method ResolvePaths(serverUrl: string, paths: seq<string>) returns (resolved: seq<string>)
    ensures resolved == ResolveAll(serverUrl, paths)
  {
    resolved := paths;
    var i := 0;
    while i < |resolved|
      invariant 0 <= i <= |resolved| == |paths|
      invariant forall j :: 0 <= j < i ==> resolved[j] == Resolve(serverUrl, paths[j])
      invariant forall j :: i <= j < |paths| ==> resolved[j] == paths[j]
    {
      if IsStreamPath(resolved[i]) {
        resolved := resolved[i := serverUrl + resolved[i]];
      }
      i := i + 1;
    }
  }

  /** A resolved path always ends with the path the manifest gave. */
  lemma ResolveEndsWithPath(serverUrl: string, path: string)
    ensures |Resolve(serverUrl, path)| >= |path|
    ensures Resolve(serverUrl, path)[|Resolve(serverUrl, path)| - |path|..] == path
  {
  }

  /** A comment, a stream path, a blank line and a CRLF-terminated local path: the two paths, in order. */
  lemma Example(stream: string, local: string)
    requires NoBreaks(stream) && Keep(stream) == [stream]
    requires NoBreaks(local) && Keep(local) == [local]
    ensures Entries("#c" + ("\n" + (stream + ("\n\n" + (local + "\r\n"))))) == [stream, local]
  {
    var tail := local + "\r\n";
    var middle := stream + ("\n\n" + tail);
    ExampleBreaks();
    EntriesLine("#c", "\n", middle);
    EntriesLine(stream, "\n\n", tail);
    EntriesLine(local, "\r\n", "");
    assert local + ("\r\n" + "") == tail;
    assert Entries("") == [];
    assert Keep("#c") == [];
  }

  lemma ExampleBreaks()
    ensures NoBreaks("#c")
    ensures AllBreaks("\n") && AllBreaks("\n\n") && AllBreaks("\r\n")
  {
  }

  /** `/stream/a` is kept as it is. */
  lemma ExampleKeep()
    ensures Keep("/stream/a") == ["/stream/a"]
  {
    assert Trim("/stream/a") == "/stream/a";
  }
}
