/**
 * The server's playlist generator: which files of a source directory go into a playlist
 * and in what order, where each directory's artwork comes from, the text of the
 * `.m3u8` file, whether it is rewritten, and how many playlists a run updates. The
 * file system is a value: the directories that exist and the regular files in the
 * order a directory listing yields them. Paths are in the normal form `pathlib`
 * prints (no `//`, no trailing `/`).
 */
module Generator {
  import opened Common
  import opened Strings
  import opened Manifest

  // ---------------------------------------------------------------------
  // Paths (the parts of `pathlib.PurePosixPath` the generator uses)

  /** Where the last component starts: after the last `/`. */
  function NameStart(p: string): (k: nat)
    ensures k <= |p|
  {
    match LastIndexOfChar(p, '/')
    case None => 0
    case Some(i) => i + 1
  }

  /** The last component holds no `/`, and a `/` precedes it unless it is the whole path. */
  lemma NameStartSplits(p: string)
    ensures '/' !in p[NameStart(p)..]
    ensures NameStart(p) > 0 ==> p[NameStart(p) - 1] == '/'
  {
    LastIndexOfCharLast(p, '/');
  }

  /** `Path.name`. */
  function BaseName(p: string): string {
    p[NameStart(p)..]
  }

  /** The name is a `/`-free tail of the path. */
  lemma BaseNameTail(p: string)
    ensures '/' !in BaseName(p) && |BaseName(p)| <= |p| && BaseName(p) == p[|p| - |BaseName(p)|..]
  {
    NameStartSplits(p);
  }

  /** `Path.parent`: `.` for a bare name, `/` for a name directly under the root. */
  function Parent(p: string): (r: string) {
    var k := NameStart(p);
    if k == 0 then "." else if k == 1 then "/" else p[..k - 1]
  }

  /** `directory / name` for a single-component name. */
  function Join(dir: string, name: string): (r: string)
    ensures dir != "." && dir != "/" ==> r == dir + "/" + name
  {
    if dir == "." then name else if dir == "/" then "/" + name else dir + "/" + name
  }

  /** Where `Path.suffix` starts in the last component: a last `.` that is neither first nor last. */
  function SuffixStart(name: string): (i: nat)
    ensures i <= |name|
  {
    match LastIndexOfChar(name, '.')
    case Some(i) => if 0 < i < |name| - 1 then i else |name|
    case None => |name|
  }

  /** `Path.suffix`: empty, or a `.` and at least one more character, with no other `.`. */
  function Suffix(p: string): string {
    var name := BaseName(p);
    var i := SuffixStart(name);
    if i < |name| then name[i..] else []
  }

  /** A suffix is empty or a `.` followed by at least one character and no other `.`. */
  lemma SuffixShape(p: string)
    ensures Suffix(p) == [] || (|Suffix(p)| >= 2 && Suffix(p)[0] == '.' && '.' !in Suffix(p)[1..])
  {
    var name := BaseName(p);
    LastIndexOfCharLast(name, '.');
    var i := SuffixStart(name);
    if i < |name| {
      assert name[i..][1..] == name[i + 1..];
    }
  }

  /** `Path.stem`: the last component without its suffix. */
  function Stem(p: string): (r: string) {
    BaseName(p)[..SuffixStart(BaseName(p))]
  }

  lemma StemThenSuffix(p: string)
    ensures Stem(p) + Suffix(p) == BaseName(p)
  {
    var name := BaseName(p);
    assert name[..SuffixStart(name)] + name[SuffixStart(name)..] == name;
  }

  // ---------------------------------------------------------------------
  // Percent-encoding (`urllib.parse.quote` with its default `safe='/'`)

  /** Characters `quote` never encodes: ASCII letters, digits, `_.-~`, and `/`. */
  predicate QuoteSafe(c: char) {
    ('A' <= c <= 'Z') || ('a' <= c <= 'z') || ('0' <= c <= '9')
    || c == '_' || c == '.' || c == '-' || c == '~' || c == '/'
  }

  /** The characters of quoted text: the safe ones, `%`, and the upper-case hex digits (which are safe). */
  predicate Quoted(s: string) {
    forall i :: 0 <= i < |s| ==> QuoteSafe(s[i]) || s[i] == '%'
  }

  /** UTF-8 encoding of one code point. */
  function Utf8(c: char): (bs: seq<nat>)
    ensures 1 <= |bs| <= 4
    ensures forall i :: 0 <= i < |bs| ==> bs[i] < 256
    ensures c as int < 0x80 ==> bs == [c as int]
    ensures c as int >= 0x80 ==> forall i :: 0 <= i < |bs| ==> bs[i] >= 0x80
  {
    var n := c as int;
    if n < 0x80 then [n]
    else if n < 0x800 then [0xC0 + n / 0x40, 0x80 + n % 0x40]
    else if n < 0x1_0000 then [0xE0 + n / 0x1000, 0x80 + (n / 0x40) % 0x40, 0x80 + n % 0x40]
    else [0xF0 + n / 0x4_0000, 0x80 + (n / 0x1000) % 0x40, 0x80 + (n / 0x40) % 0x40, 0x80 + n % 0x40]
  }

  function HexDigit(d: nat): (c: char)
    requires d < 16
    ensures QuoteSafe(c)
  {
    if d < 10 then ('0' as int + d) as char else ('A' as int + d - 10) as char
  }

  /** One byte: itself when it is a safe ASCII character, else `%XX`. */
  function QuoteByte(b: nat): (r: string)
    requires b < 256
    ensures Quoted(r)
    ensures b < 0x80 && QuoteSafe(b as char) ==> r == [b as char]
  {
    if b < 0x80 && QuoteSafe(b as char) then [b as char]
    else ['%', HexDigit(b / 16), HexDigit(b % 16)]
  }

  function QuoteBytes(bs: seq<nat>): (r: string)
    requires forall i :: 0 <= i < |bs| ==> bs[i] < 256
    ensures Quoted(r)
  {
    if bs == [] then [] else QuoteByte(bs[0]) + QuoteBytes(bs[1..])
  }

  /** `urllib.parse.quote(s)`: each character's UTF-8 bytes, encoded one by one. */
  function Quote(s: string): (r: string)
    ensures Quoted(r)
  {
    if s == [] then [] else QuoteBytes(Utf8(s[0])) + Quote(s[1..])
  }

  /** Text made only of safe characters is left as it is. */
  lemma {:induction false} QuoteKeepsSafe(s: string)
    requires forall i :: 0 <= i < |s| ==> QuoteSafe(s[i])
    ensures Quote(s) == s
  {
    if s != [] {
      var c := s[0];
      assert QuoteSafe(c);
      assert c as int < 0x80;
      assert (c as int) as char == c;
      assert QuoteBytes([c as int]) == QuoteByte(c as int) + QuoteBytes([]);
      QuoteKeepsSafe(s[1..]);
      assert s == [c] + s[1..];
    }
  }

  /** Quoted text has no line break, space, tab or `#`. */
  lemma QuotedIsPlain(s: string)
    requires Quoted(s)
    ensures NoBreaks(s)
    ensures forall i :: 0 <= i < |s| ==> s[i] != ' ' && s[i] != '\t' && s[i] != '#'
  {
    assert forall i :: 0 <= i < |s| ==> QuoteSafe(s[i]) || s[i] == '%';
  }

  // ---------------------------------------------------------------------
  // The file system and `find_artwork`

  /** The directories that exist and the regular files, in directory-listing order. */
  datatype FileSystem = FileSystem(dirs: set<string>, files: seq<string>)

  /** The artwork names tried first, in priority order. */
  const ArtworkFilenames: seq<string> := [
    "cover.jpg", "Cover.jpg", "COVER.JPG",
    "folder.jpg", "Folder.jpg", "FOLDER.JPG",
    "front.jpg", "Front.jpg", "FRONT.JPG",
    "cover.png", "Cover.png", "COVER.PNG",
    "folder.png", "Folder.png", "FOLDER.PNG",
    "front.png", "Front.png", "FRONT.PNG",
    "album.jpg", "Album.jpg", "ALBUM.JPG",
    "albumart.jpg", "AlbumArt.jpg", "ALBUMART.JPG"]

  /** The fallback patterns `*.jpg`, `*.jpeg`, `*.png`, as the endings they match. */
  const ImageEndings: seq<string> := [".jpg", ".jpeg", ".png"]

  predicate EndsWith(s: string, end: string) {
    |end| <= |s| && s[|s| - |end|..] == end
  }

  /** `directory.glob("*" + ending)` yields `p`: a file directly in the directory with that ending. */
  predicate Globbed(dir: string, ending: string, p: string) {
    Parent(p) == dir && EndsWith(BaseName(p), ending)
  }

  /** The fixed names as paths in the directory, in priority order. */
  function Candidates(dir: string): (r: seq<string>)
    ensures |r| == |ArtworkFilenames|
    ensures forall k :: 0 <= k < |r| ==> r[k] == Join(dir, ArtworkFilenames[k])
  {
    seq(|ArtworkFilenames|, k requires 0 <= k < |ArtworkFilenames| => Join(dir, ArtworkFilenames[k]))
  }

  /** `Path.exists()` for a file. */
  function Exists(fs: FileSystem): string -> bool {
    p => p in fs.files
  }

  /** What `directory.glob("*" + ending)` yields. */
  function GlobFilter(dir: string, ending: string): string -> bool {
    p => Globbed(dir, ending, p)
  }

  /** The patterns from index `e` on: the first file the first productive pattern yields. */
  function FirstImageFrom(dir: string, fs: FileSystem, e: nat): (r: Option<string>)
    requires e <= |ImageEndings|
    decreases |ImageEndings| - e
  {
    if e == |ImageEndings| then None
    else match FirstFrom(fs.files, GlobFilter(dir, ImageEndings[e]), 0)
      case Some(j) => Some(fs.files[j])
      case None => FirstImageFrom(dir, fs, e + 1)
  }

  /** A pattern's answer is a listed file directly in the directory; there is none exactly when no pattern yields anything. */
  lemma {:induction false} FirstImageFromFound(dir: string, fs: FileSystem, e: nat)
    requires e <= |ImageEndings|
    ensures var r := FirstImageFrom(dir, fs, e);
      (r.Some? ==> r.value in fs.files && Parent(r.value) == dir)
      && (r.None? <==> forall k, j :: e <= k < |ImageEndings| && 0 <= j < |fs.files| ==>
                         !Globbed(dir, ImageEndings[k], fs.files[j]))
    decreases |ImageEndings| - e
  {
    if e < |ImageEndings| {
      FirstFromFirst(fs.files, GlobFilter(dir, ImageEndings[e]), 0);
      FirstImageFromFound(dir, fs, e + 1);
      match FirstFrom(fs.files, GlobFilter(dir, ImageEndings[e]), 0)
      case Some(j) =>
        assert Globbed(dir, ImageEndings[e], fs.files[j]);
      case None =>
    }
  }

  /**
   * `find_artwork`: the first of the fixed names that exists in the directory, else the
   * first file the `*.jpg`, then `*.jpeg`, then `*.png` pattern yields there.
   */
  function FirstArtwork(dir: string, fs: FileSystem): Option<string> {
    match FirstFrom(Candidates(dir), Exists(fs), 0)
    case Some(k) => Some(Candidates(dir)[k])
    case None => FirstImageFrom(dir, fs, 0)
  }

  /** Whatever artwork is found is a listed file. */
  lemma ArtworkListed(dir: string, fs: FileSystem)
    ensures FirstArtwork(dir, fs).Some? ==> FirstArtwork(dir, fs).value in fs.files
  {
    FirstFromFirst(Candidates(dir), Exists(fs), 0);
    FirstImageFromFound(dir, fs, 0);
  }

  /**
   * The fixed names come first, in their order: when one of them exists, the answer is it
   * or an earlier one.
   */
  lemma ArtworkPriority(dir: string, fs: FileSystem, k: nat)
    requires k < |ArtworkFilenames| && Join(dir, ArtworkFilenames[k]) in fs.files
    ensures exists j :: 0 <= j <= k && FirstArtwork(dir, fs) == Some(Join(dir, ArtworkFilenames[j]))
  {
    var c := Candidates(dir);
    FirstFromFirst(c, Exists(fs), 0);
    assert Exists(fs)(c[k]);
    var j := FirstFrom(c, Exists(fs), 0).value;
    assert j <= k;
  }

  /** Only when none of the fixed names exists do the patterns decide. */
  lemma ArtworkFallback(dir: string, fs: FileSystem)
    requires forall k :: 0 <= k < |ArtworkFilenames| ==> Join(dir, ArtworkFilenames[k]) !in fs.files
    ensures FirstArtwork(dir, fs) == FirstImageFrom(dir, fs, 0)
  {
    FirstFromFirst(Candidates(dir), Exists(fs), 0);
  }

  /** `find_artwork`: the fixed names in order, then the patterns. */
  method FindArtwork(dir: string, fs: FileSystem) returns (r: Option<string>)
    ensures r == FirstArtwork(dir, fs)
  {
    var i := 0;
    while i < |ArtworkFilenames|
      invariant i <= |ArtworkFilenames|
      invariant FirstFrom(Candidates(dir), Exists(fs), 0) == FirstFrom(Candidates(dir), Exists(fs), i)
    {
      var candidate := Join(dir, ArtworkFilenames[i]);
      assert candidate == Candidates(dir)[i];
      if candidate in fs.files {
        return Some(candidate);
      }
      i := i + 1;
    }
    r := FindImage(dir, fs);
  }

  /** `find_artwork`'s pattern loops: each pattern's matches in listing order. */
  method FindImage(dir: string, fs: FileSystem) returns (r: Option<string>)
    ensures r == FirstImageFrom(dir, fs, 0)
  {
    var e := 0;
    while e < |ImageEndings|
      invariant e <= |ImageEndings|
      invariant FirstImageFrom(dir, fs, 0) == FirstImageFrom(dir, fs, e)
    {
      var j := 0;
      while j < |fs.files|
        invariant j <= |fs.files|
        invariant FirstFrom(fs.files, GlobFilter(dir, ImageEndings[e]), 0) == FirstFrom(fs.files, GlobFilter(dir, ImageEndings[e]), j)
      {
        if Globbed(dir, ImageEndings[e], fs.files[j]) {
          return Some(fs.files[j]);
        }
        j := j + 1;
      }
      e := e + 1;
    }
    return None;
  }

  // ---------------------------------------------------------------------
  // `scan_directory`

  /** The audio suffixes, lower-case. */
  const AudioExtensions: set<string> :=
    {".flac", ".mp3", ".m4a", ".ogg", ".opus", ".wav", ".aac", ".wma", ".ape", ".alac"}

  predicate IsAudio(p: string) {
    Lower(Suffix(p)) in AudioExtensions
  }

  /** What a path printed under `dir` starts with. */
  function DirPrefix(dir: string): string {
    if dir == "." then "" else if dir == "/" then "/" else dir + "/"
  }

  /** The recursive glob (any depth) or the flat one (directly inside) yields the file `p`. */
  predicate Under(dir: string, p: string, recursive: bool) {
    var pre := DirPrefix(dir);
    |pre| < |p| && pre <= p && (dir == "." ==> p[0] != '/')
    && (recursive || '/' !in p[|pre|..])
  }

  /** A listed file `scan_directory` keeps. */
  predicate Scanned(dir: string, recursive: bool, p: string) {
    Under(dir, p, recursive) && IsAudio(p)
  }

  /** The scan's test on one listed file, as a value. */
  function ScanFilter(dir: string, recursive: bool): string -> bool {
    p => Scanned(dir, recursive, p)
  }

  /** The files among the first `n` of the listing that `keep` accepts, in listing order. */
  function Matching(files: seq<string>, keep: string -> bool, n: nat): seq<string>
    requires n <= |files|
  {
    if n == 0 then [] else Matching(files, keep, n - 1) + (if keep(files[n - 1]) then [files[n - 1]] else [])
  }

  /** What `Matching` keeps is exactly what is listed and accepted. */
  lemma {:induction false} MatchingMembers(files: seq<string>, keep: string -> bool, n: nat)
    requires n <= |files|
    ensures forall p :: p in Matching(files, keep, n) <==> p in files[..n] && keep(p)
  {
    if n > 0 {
      MatchingMembers(files, keep, n - 1);
      assert files[..n] == files[..n - 1] + [files[n - 1]];
    }
  }

  /** Python's `list.sort()` order on strings. */
  predicate Sorted(s: seq<string>) {
    forall i, j :: 0 <= i < j < |s| ==> LexLeq(s[i], s[j])
  }

  /** A string no greater than the head of a sorted list is no greater than any of it. */
  lemma BelowHead(x: string, s: seq<string>)
    requires Sorted(s) && s != [] && LexLeq(x, s[0])
    ensures Sorted([x] + s)
  {
    forall j | 0 <= j < |s| ensures LexLeq(x, s[j]) {
      if j > 0 {
        LexLeqTransitive(x, s[0], s[j]);
      }
    }
  }

  /** The head of a sorted list stays in front of a sorted list of its tail's elements and one more. */
  lemma AboveHead(h: string, x: string, s: seq<string>, t: seq<string>)
    requires Sorted([h] + s) && Sorted(t) && LexLeq(h, x)
    requires multiset(t) == multiset(s) + multiset{x}
    ensures Sorted([h] + t)
  {
    forall j | 0 <= j < |t| ensures LexLeq(h, t[j]) {
      assert t[j] in multiset(t);
      if t[j] != x {
        assert t[j] in multiset(s);
        var k :| 0 <= k < |s| && s[k] == t[j];
        assert ([h] + s)[0] == h && ([h] + s)[k + 1] == s[k];
        assert LexLeq(([h] + s)[0], ([h] + s)[k + 1]);
      }
    }
  }

  function Insert(x: string, s: seq<string>): (r: seq<string>)
    requires Sorted(s)
    ensures Sorted(r)
    ensures multiset(r) == multiset(s) + multiset{x}
  {
    if s == [] then [x]
    else if LexLeq(x, s[0]) then
      BelowHead(x, s);
      [x] + s
    else
      var t := Insert(x, s[1..]);
      LexLeqTotal(x, s[0]);
      assert s == [s[0]] + s[1..];
      AboveHead(s[0], x, s[1..], t);
      [s[0]] + t
  }

  /** `list.sort()` on strings, as an insertion sort. */
  function SortStrings(s: seq<string>): (r: seq<string>)
    ensures Sorted(r)
    ensures multiset(r) == multiset(s)
  {
    if s == [] then []
    else
      assert s == [s[0]] + s[1..];
      Insert(s[0], SortStrings(s[1..]))
  }

  /** `scan_directory`'s answer: nothing for a missing directory, else the kept files sorted. */
  function ScanResult(dir: string, recursive: bool, fs: FileSystem): seq<string> {
    if dir !in fs.dirs then [] else SortStrings(Matching(fs.files, ScanFilter(dir, recursive), |fs.files|))
  }

  /** The result is sorted and holds exactly the listed audio files under the directory. */
  lemma ScanResultContents(dir: string, recursive: bool, fs: FileSystem)
    ensures Sorted(ScanResult(dir, recursive, fs))
    ensures forall p :: p in ScanResult(dir, recursive, fs) <==>
      dir in fs.dirs && p in fs.files && Scanned(dir, recursive, p)
  {
    if dir in fs.dirs {
      var m := Matching(fs.files, ScanFilter(dir, recursive), |fs.files|);
      MatchingMembers(fs.files, ScanFilter(dir, recursive), |fs.files|);
      assert fs.files[..|fs.files|] == fs.files;
      forall p ensures p in SortStrings(m) <==> p in m {
        assert p in SortStrings(m) <==> p in multiset(SortStrings(m));
        assert p in m <==> p in multiset(m);
      }
    }
  }

  /** `scan_directory`: keep the matching files in listing order, then sort. */
  method ScanDirectory(dir: string, recursive: bool, fs: FileSystem) returns (files: seq<string>)
    ensures files == ScanResult(dir, recursive, fs)
  {
    if dir !in fs.dirs {
      return [];
    }
    files := CollectAudio(fs.files, ScanFilter(dir, recursive));
    files := SortStrings(files);
  }

  /** `scan_directory`'s loop over the glob: the listed files the test keeps, in listing order. */
  method CollectAudio(listing: seq<string>, keep: string -> bool) returns (files: seq<string>)
    ensures files == Matching(listing, keep, |listing|)
  {
    files := [];
    var i := 0;
    while i < |listing|
      invariant i <= |listing|
      invariant files == Matching(listing, keep, i)
    {
      var p := listing[i];
      if keep(p) {
        files := files + [p];
      }
      i := i + 1;
    }
  }

  // ---------------------------------------------------------------------
  // `generate_playlist`

  /** The artwork tag line. */
  function ExtImgLine(art: string): string { "#EXTIMG:/stream" + Quote(art) }

  /** The track line: the file's stem as the title, no duration. */
  function ExtInfLine(f: string): string { "#EXTINF:-1," + Stem(f) }

  /** The location line the plugin reads back. */
  function StreamLine(f: string): string { "/stream" + Quote(f) }

  /** The lines for one file: the artwork tag when there is artwork and tags are on, the track, the location. */
  function FileLines(f: string, art: Option<string>, extimg: bool): (r: seq<string>)
    ensures |r| == if art.Some? && extimg then 3 else 2
    ensures r[|r| - 2] == ExtInfLine(f) && r[|r| - 1] == StreamLine(f)
    ensures |r| == 3 ==> r[0] == ExtImgLine(art.value)
  {
    (if art.Some? && extimg then [ExtImgLine(art.value)] else []) + [ExtInfLine(f), StreamLine(f)]
  }

  /** The generator's running state: the lines so far, the last artwork found, the directories with artwork. */
  datatype Progress = Progress(lines: seq<string>, lastArt: Option<string>, found: nat)

  /** One file's artwork and the state it leaves for the next file. */
  datatype Lookup = Lookup(art: Option<string>, lastArt: Option<string>, hit: bool)

  /**
   * The artwork rule: with artwork off, none; when the last artwork found lies in this
   * file's directory it is reused without a search; otherwise the directory is
   * searched, and a hit becomes the last artwork (a miss leaves the old one).
   */
  function ArtworkFor(withArt: bool, lastArt: Option<string>, f: string, find: string -> Option<string>): (r: Lookup)
    ensures !withArt ==> r == Lookup(None, lastArt, false)
    ensures withArt && lastArt.Some? && Parent(lastArt.value) == Parent(f) ==>
      r == Lookup(lastArt, lastArt, false)
    ensures withArt && !(lastArt.Some? && Parent(lastArt.value) == Parent(f)) ==>
      r.art == find(Parent(f)) && r.hit == r.art.Some?
      && r.lastArt == (if r.hit then r.art else lastArt)
  {
    if !withArt then Lookup(None, lastArt, false)
    else if lastArt.None? || Parent(lastArt.value) != Parent(f) then
      var art := find(Parent(f));
      if art.Some? then Lookup(art, art, true) else Lookup(None, lastArt, false)
    else Lookup(lastArt, lastArt, false)
  }

  /** The artwork search used by the generator: `find_artwork` on the file system. */
  function Finder(fs: FileSystem): string -> Option<string> {
    dir => FirstArtwork(dir, fs)
  }

  /** The state after the first `n` files, with `find` as the artwork search. */
  function BuildFrom(files: seq<string>, withArt: bool, extimg: bool, find: string -> Option<string>, n: nat): (r: Progress)
    requires n <= |files|
    ensures r.found <= n
  {
    if n == 0 then Progress([], None, 0)
    else
      var prev := BuildFrom(files, withArt, extimg, find, n - 1);
      var look := ArtworkFor(withArt, prev.lastArt, files[n - 1], find);
      Progress(prev.lines + FileLines(files[n - 1], look.art, extimg), look.lastArt,
               prev.found + if look.hit then 1 else 0)
  }

  /** One more file: its lines appended, its lookup's state carried on. */
  lemma BuildStep(files: seq<string>, withArt: bool, extimg: bool, find: string -> Option<string>, n: nat, look: Lookup)
    requires n < |files|
    requires look == ArtworkFor(withArt, BuildFrom(files, withArt, extimg, find, n).lastArt, files[n], find)
    ensures BuildFrom(files, withArt, extimg, find, n + 1).lines ==
      BuildFrom(files, withArt, extimg, find, n).lines + FileLines(files[n], look.art, extimg)
    ensures BuildFrom(files, withArt, extimg, find, n + 1).lastArt == look.lastArt
    ensures BuildFrom(files, withArt, extimg, find, n + 1).found ==
      BuildFrom(files, withArt, extimg, find, n).found + if look.hit then 1 else 0
  {
  }

  /** `'\n'.join(lines)`. */
  function JoinLines(lines: seq<string>): string {
    if lines == [] then []
    else if |lines| == 1 then lines[0]
    else lines[0] + "\n" + JoinLines(lines[1..])
  }

  /** The file text: the header and the lines joined by newlines, with a final newline. */
  function Content(lines: seq<string>): string {
    JoinLines(["#EXTM3U"] + lines) + "\n"
  }

  /** Joining with a final newline is terminating every line with one. */
  lemma {:induction false} JoinThenNewline(lines: seq<string>)
    requires lines != []
    ensures JoinLines(lines) + "\n" == Terminated(lines)
  {
    if |lines| > 1 {
      JoinThenNewline(lines[1..]);
      assert lines[0] + "\n" + JoinLines(lines[1..]) + "\n" == lines[0] + "\n" + (JoinLines(lines[1..]) + "\n");
    } else {
      assert lines[1..] == [];
    }
  }

  /** The file text starts with the header line and ends with a newline. */
  lemma ContentShape(lines: seq<string>)
    ensures "#EXTM3U\n" <= Content(lines)
    ensures Content(lines)[|Content(lines)| - 1] == '\n'
  {
    JoinThenNewline(["#EXTM3U"] + lines);
    assert (["#EXTM3U"] + lines)[0] == "#EXTM3U";
  }

  /** The location lines of the first `n` files, in order. */
  function StreamLines(files: seq<string>, n: nat): (r: seq<string>)
    requires n <= |files|
    ensures |r| == n && forall i :: 0 <= i < n ==> r[i] == StreamLine(files[i])
  {
    seq(n, i requires 0 <= i < n => StreamLine(files[i]))
  }

  /** A location line has nothing to trim and does not start with `#`: the reader keeps it whole. */
  lemma KeepStreamLine(f: string)
    ensures Keep(StreamLine(f)) == [StreamLine(f)]
  {
    var line := StreamLine(f);
    var q := Quote(f);
    QuotedIsPlain(q);
    assert line[|line| - 1] != ' ' && line[|line| - 1] != '\t' by {
      if q != [] {
        assert line[|line| - 1] == q[|q| - 1];
      }
    }
    assert TrimTrailing(line, ' ') == line;
    assert TrimTrailing(line, '\t') == line;
  }

  /** The tag lines start with `#`: the reader drops them. */
  lemma KeepTagLines(f: string, art: string)
    ensures Keep(ExtInfLine(f)) == [] && Keep(ExtImgLine(art)) == []
  {
  }

  /** A location line is kept whole by the manifest reader; the tag lines are dropped. */
  lemma KeepFileLines(f: string, art: Option<string>, extimg: bool)
    ensures KeepAll(FileLines(f, art, extimg)) == [StreamLine(f)]
  {
    var line := StreamLine(f);
    KeepStreamLine(f);
    KeepTagLines(f, if art.Some? then art.value else "");
    var tail := [ExtInfLine(f), line];
    KeepAllCons(line, []);
    KeepAllCons(ExtInfLine(f), [line]);
    assert [ExtInfLine(f)] + [line] == tail;
    if art.Some? && extimg {
      KeepAllCons(ExtImgLine(art.value), tail);
      assert FileLines(f, art, extimg) == [ExtImgLine(art.value)] + tail;
    } else {
      assert FileLines(f, art, extimg) == tail;
    }
  }

  /** No line of `lines` holds a line break. */
  predicate Unbroken(lines: seq<string>) {
    forall i :: 0 <= i < |lines| ==> NoBreaks(lines[i])
  }

  lemma UnbrokenAppend(a: seq<string>, b: seq<string>)
    requires Unbroken(a) && Unbroken(b)
    ensures Unbroken(a + b)
  {
    forall i | 0 <= i < |a + b| ensures NoBreaks((a + b)[i]) {
      if i < |a| {
        assert (a + b)[i] == a[i];
      } else {
        assert (a + b)[i] == b[i - |a|];
      }
    }
  }

  lemma NoBreaksConcat(a: string, b: string)
    requires NoBreaks(a) && NoBreaks(b)
    ensures NoBreaks(a + b)
  {
    forall i | 0 <= i < |a + b| ensures !IsBreak((a + b)[i]) {
      if i < |a| {
        assert (a + b)[i] == a[i];
      } else {
        assert (a + b)[i] == b[i - |a|];
      }
    }
  }

  lemma ExtInfNoBreaks(f: string)
    requires NoBreaks(Stem(f))
    ensures NoBreaks(ExtInfLine(f))
  {
    NoBreaksConcat("#EXTINF:-1,", Stem(f));
  }

  lemma StreamNoBreaks(f: string)
    ensures NoBreaks(StreamLine(f))
  {
    QuotedIsPlain(Quote(f));
    NoBreaksConcat("/stream", Quote(f));
  }

  lemma ExtImgNoBreaks(art: string)
    ensures NoBreaks(ExtImgLine(art))
  {
    QuotedIsPlain(Quote(art));
    NoBreaksConcat("#EXTIMG:/stream", Quote(art));
  }

  /** Every generated line is free of line breaks when the stem is. */
  lemma FileLinesNoBreaks(f: string, art: Option<string>, extimg: bool)
    requires NoBreaks(Stem(f))
    ensures Unbroken(FileLines(f, art, extimg))
  {
    ExtInfNoBreaks(f);
    StreamNoBreaks(f);
    var tail := [ExtInfLine(f), StreamLine(f)];
    if art.Some? && extimg {
      ExtImgNoBreaks(art.value);
      UnbrokenAppend([ExtImgLine(art.value)], tail);
    }
  }

  lemma StreamLinesSnoc(files: seq<string>, n: nat)
    requires 0 < n <= |files|
    ensures StreamLines(files, n) == StreamLines(files, n - 1) + [StreamLine(files[n - 1])]
  {
  }

  /** The generated lines are break-free when every stem is. */
  lemma {:induction false} BuildUnbroken(files: seq<string>, withArt: bool, extimg: bool, find: string -> Option<string>, n: nat)
    requires n <= |files|
    requires forall i :: 0 <= i < |files| ==> NoBreaks(Stem(files[i]))
    ensures Unbroken(BuildFrom(files, withArt, extimg, find, n).lines)
  {
    if n > 0 {
      BuildUnbroken(files, withArt, extimg, find, n - 1);
      var prev := BuildFrom(files, withArt, extimg, find, n - 1);
      var look := ArtworkFor(withArt, prev.lastArt, files[n - 1], find);
      FileLinesNoBreaks(files[n - 1], look.art, extimg);
      UnbrokenAppend(prev.lines, FileLines(files[n - 1], look.art, extimg));
    }
  }

  /** What the manifest reader keeps of the lines for the first `n` files: their location lines. */
  lemma {:induction false} BuildKeeps(files: seq<string>, withArt: bool, extimg: bool, find: string -> Option<string>, n: nat)
    requires n <= |files|
    ensures KeepAll(BuildFrom(files, withArt, extimg, find, n).lines) == StreamLines(files, n)
  {
    if n > 0 {
      BuildKeeps(files, withArt, extimg, find, n - 1);
      var prev := BuildFrom(files, withArt, extimg, find, n - 1);
      var look := ArtworkFor(withArt, prev.lastArt, files[n - 1], find);
      KeepFileLines(files[n - 1], look.art, extimg);
      KeepAllAppend(prev.lines, FileLines(files[n - 1], look.art, extimg));
      StreamLinesSnoc(files, n);
    }
  }

  /**
   * The generator and the plugin agree: reading a generated playlist yields one location
   * per file, `/stream` and the quoted path, in file order. A stem with a line break
   * would add a line of its own, so stems are required to have none.
   */
  lemma ContentEntries(files: seq<string>, withArt: bool, extimg: bool, find: string -> Option<string>)
    requires forall i :: 0 <= i < |files| ==> NoBreaks(Stem(files[i]))
    ensures Entries(Content(BuildFrom(files, withArt, extimg, find, |files|).lines)) == StreamLines(files, |files|)
  {
    BuildUnbroken(files, withArt, extimg, find, |files|);
    BuildKeeps(files, withArt, extimg, find, |files|);
    ContentReadsBack(BuildFrom(files, withArt, extimg, find, |files|).lines);
  }

  /** Reading the file text of break-free lines keeps what the reader keeps of the lines; the header is dropped. */
  lemma ContentReadsBack(lines: seq<string>)
    requires Unbroken(lines)
    ensures Entries(Content(lines)) == KeepAll(lines)
  {
    var all := ["#EXTM3U"] + lines;
    JoinThenNewline(all);
    assert NoBreaks("#EXTM3U");
    UnbrokenAppend(["#EXTM3U"], lines);
    EntriesTerminated(all);
    assert Keep("#EXTM3U") == [];
    KeepAllCons("#EXTM3U", lines);
  }

  /**
   * `generate_playlist`: builds the lines file by file, then compares the text with the
   * existing file (absent or unreadable: no text). Equal text gives false and no write;
   * otherwise the text is written, and the answer is whether the write went through.
   */
  method GeneratePlaylist(files: seq<string>, withArt: bool, extimg: bool, fs: FileSystem,
                          existing: Option<string>, writable: bool)
    returns (updated: bool, written: Option<string>)
    ensures var content := PlaylistText(files, withArt, extimg, fs);
      written == (if existing == Some(content) || !writable then None else Some(content))
    ensures updated <==> written.Some?
  {
    var built := BuildLines(files, withArt, extimg, fs);
    var content := Content(built.lines);
    if existing == Some(content) {
      return false, None;
    }
    if !writable {
      return false, None;
    }
    return true, Some(content);
  }

  /** `generate_playlist`'s loop over the files: the lines, the last artwork and the number of artwork hits. */
  method BuildLines(files: seq<string>, withArt: bool, extimg: bool, fs: FileSystem) returns (p: Progress)
    ensures p == BuildFrom(files, withArt, extimg, Finder(fs), |files|)
  {
    p := Progress([], None, 0);
    var i := 0;
    while i < |files|
      invariant i <= |files|
      invariant p == BuildFrom(files, withArt, extimg, Finder(fs), i)
    {
      p := AddFile(files, withArt, extimg, fs, i, p);
      SameProgress(p, BuildFrom(files, withArt, extimg, Finder(fs), i + 1));
      i := i + 1;
    }
  }

  lemma SameProgress(a: Progress, b: Progress)
    requires a.lines == b.lines && a.lastArt == b.lastArt && a.found == b.found
    ensures a == b
  {
  }

  /** One pass of `generate_playlist`'s loop: the artwork lookup, then the file's lines. */
  method AddFile(files: seq<string>, withArt: bool, extimg: bool, fs: FileSystem, i: nat, p: Progress) returns (q: Progress)
    requires i < |files|
    requires p == BuildFrom(files, withArt, extimg, Finder(fs), i)
    ensures q.lines == BuildFrom(files, withArt, extimg, Finder(fs), i + 1).lines
    ensures q.lastArt == BuildFrom(files, withArt, extimg, Finder(fs), i + 1).lastArt
    ensures q.found == BuildFrom(files, withArt, extimg, Finder(fs), i + 1).found
  {
    var look := LookUpArtwork(withArt, p.lastArt, files[i], fs);
    BuildStep(files, withArt, extimg, Finder(fs), i, look);
    var lines := AppendFileLines(p.lines, files[i], look.art, extimg);
    var found := p.found;
    if look.hit {
      found := found + 1;
    }
    q := Progress(lines, look.lastArt, found);
  }

  /** The artwork part of one pass of `generate_playlist`'s loop. */
  method LookUpArtwork(withArt: bool, lastArt: Option<string>, f: string, fs: FileSystem) returns (look: Lookup)
    ensures look == ArtworkFor(withArt, lastArt, f, Finder(fs))
  {
    var art: Option<string> := None;
    var last := lastArt;
    var hit := false;
    if withArt {
      if lastArt.None? || Parent(lastArt.value) != Parent(f) {
        art := FindArtwork(Parent(f), fs);
        if art.Some? {
          last := art;
          hit := true;
        }
      } else {
        art := lastArt;
      }
    }
    return Lookup(art, last, hit);
  }

  /** The appends of one pass of `generate_playlist`'s loop. */
  method AppendFileLines(lines: seq<string>, f: string, art: Option<string>, extimg: bool) returns (r: seq<string>)
    ensures r == lines + FileLines(f, art, extimg)
  {
    r := lines;
    if art.Some? && extimg {
      r := r + [ExtImgLine(art.value)];
    }
    r := r + [ExtInfLine(f)];
    r := r + [StreamLine(f)];
  }

  /** The text `generate_playlist` builds for a list of files. */
  function PlaylistText(files: seq<string>, withArt: bool, extimg: bool, fs: FileSystem): string {
    Content(BuildFrom(files, withArt, extimg, Finder(fs), |files|).lines)
  }

  // ---------------------------------------------------------------------
  // Reading an existing playlist back

  /**
   * What `open(path, 'r').read()` yields for a file's text: universal newlines turn
   * `\r\n` and a lone `\r` into `\n`, and leave every other character as it is.
   */
  function ReadText(s: string): (t: string)
    ensures '\r' !in t
    ensures '\r' !in s ==> t == s
    ensures s != [] ==> t != []
    decreases |s|
  {
    if s == [] then []
    else if s[0] == '\r' then "\n" + ReadText(if |s| > 1 && s[1] == '\n' then s[2..] else s[1..])
    else [s[0]] + ReadText(s[1..])
  }

  /** How much of `s` one step of reading consumes: a `\r\n` pair, or one character. */
  function StepLength(s: string): (n: nat)
    requires s != []
    ensures n == 1 || n == 2
    ensures n <= |s|
  {
    if s[0] == '\r' && |s| > 1 && s[1] == '\n' then 2 else 1
  }

  /** One step of reading: the first character read, then the rest read. */
  lemma ReadTextStep(s: string)
    requires s != []
    ensures ReadText(s) == [if s[0] == '\r' then '\n' else s[0]] + ReadText(s[StepLength(s)..])
  {
  }

  /** A step taken at the start of `a + b` stays inside `a`. */
  lemma {:induction false} StepOfAppend(a: string, b: string)
    requires a != []
    requires b == [] || a[|a| - 1] != '\r' || b[0] != '\n'
    ensures StepLength(a + b) == StepLength(a)
    ensures (a + b)[StepLength(a)..] == a[StepLength(a)..] + b
  {
    var c := a + b;
    assert c[0] == a[0];
    if |a| > 1 {
      assert c[1] == a[1];
    } else if a[0] == '\r' && b != [] {
      assert c[1] == b[0];
    }
  }

  /** Reading splits at a point that does not cut a `\r\n` pair. */
  lemma {:induction false} ReadTextAppend(a: string, b: string)
    requires a == [] || b == [] || a[|a| - 1] != '\r' || b[0] != '\n'
    ensures ReadText(a + b) == ReadText(a) + ReadText(b)
    decreases |a|
  {
    if a == [] {
      assert a + b == b;
    } else {
      var n := StepLength(a);
      var h := [if a[0] == '\r' then '\n' else a[0]];
      var a', c := a[n..], a + b;
      StepOfAppend(a, b);
      assert c[0] == a[0];
      ReadTextStep(c);
      assert ReadText(c) == h + ReadText(a' + b);
      ReadTextStep(a);
      assert ReadText(a) == h + ReadText(a');
      if a' != [] {
        assert a'[|a'| - 1] == a[|a| - 1];
      }
      ReadTextAppend(a', b);
      AppendAssoc(h, ReadText(a'), ReadText(b));
    }
  }

  /** Line breaks read back as newlines. */
  lemma {:induction false} ReadTextBreaks(s: string)
    requires AllBreaks(s)
    ensures AllBreaks(ReadText(s))
    decreases |s|
  {
    if s != [] {
      if s[0] == '\r' && |s| > 1 && s[1] == '\n' {
        ReadTextBreaks(s[2..]);
      } else {
        ReadTextBreaks(s[1..]);
      }
    }
  }

  /** The plugin's reader finds the same entries in a file and in the text Python reads from it. */
  lemma {:induction false} EntriesOfReadText(s: string)
    ensures Entries(ReadText(s)) == Entries(s)
    decreases |s|
  {
    var e := LineEnd(s, 0);
    LineEndNoBreaks(s, 0);
    if e == |s| {
      assert NoBreaks(s);
      NoBreaksWithoutCR(s);
    } else {
      var q := BreaksEnd(s, e + 1);
      BreaksEndAllBreaks(s, e + 1);
      var line, breaks, rest := s[..e], s[e..q], s[q..];
      assert s == line + (breaks + rest);
      assert NoBreaks(line) by {
        forall i | 0 <= i < |line| ensures !IsBreak(line[i]) {
          assert line[i] == s[i];
        }
      }
      assert AllBreaks(breaks) by {
        forall i | 0 <= i < |breaks| ensures IsBreak(breaks[i]) {
          assert breaks[i] == s[e + i];
        }
      }
      assert breaks != [];
      assert rest == [] || !IsBreak(rest[0]) by {
        if rest != [] {
          assert rest[0] == s[q];
        }
      }
      EntriesLine(line, breaks, rest);
      NoBreaksWithoutCR(line);
      ReadTextAppend(line, breaks + rest);
      ReadTextAppend(breaks, rest);
      ReadTextBreaks(breaks);
      assert ReadText(s) == line + (ReadText(breaks) + ReadText(rest));
      EntriesLine(line, ReadText(breaks), ReadText(rest));
      EntriesOfReadText(rest);
    }
  }

  /** No scanned file's stem holds a carriage return. */
  predicate StemsWithoutCR(files: seq<string>) {
    forall k :: 0 <= k < |files| ==> '\r' !in Stem(files[k])
  }

  /** No line holds a carriage return. */
  predicate LinesWithoutCR(lines: seq<string>) {
    forall i :: 0 <= i < |lines| ==> '\r' !in lines[i]
  }

  lemma NoBreaksWithoutCR(s: string)
    requires NoBreaks(s)
    ensures '\r' !in s
  {
    forall i | 0 <= i < |s| ensures s[i] != '\r' {
      assert !IsBreak(s[i]);
    }
  }

  /** The lines for one file hold no carriage return when its stem holds none. */
  lemma FileLinesWithoutCR(f: string, art: Option<string>, extimg: bool)
    requires '\r' !in Stem(f)
    ensures LinesWithoutCR(FileLines(f, art, extimg))
  {
    StreamNoBreaks(f);
    NoBreaksWithoutCR(StreamLine(f));
    assert '\r' !in ExtInfLine(f);
    if art.Some? && extimg {
      ExtImgNoBreaks(art.value);
      NoBreaksWithoutCR(ExtImgLine(art.value));
    }
  }

  /** The generated lines hold no carriage return when no stem does. */
  lemma {:induction false} BuildWithoutCR(files: seq<string>, withArt: bool, extimg: bool,
                                           find: string -> Option<string>, n: nat)
    requires n <= |files| && StemsWithoutCR(files)
    ensures LinesWithoutCR(BuildFrom(files, withArt, extimg, find, n).lines)
  {
    if n > 0 {
      BuildWithoutCR(files, withArt, extimg, find, n - 1);
      var prev := BuildFrom(files, withArt, extimg, find, n - 1);
      var look := ArtworkFor(withArt, prev.lastArt, files[n - 1], find);
      FileLinesWithoutCR(files[n - 1], look.art, extimg);
      var all := prev.lines + FileLines(files[n - 1], look.art, extimg);
      assert forall i :: 0 <= i < |all| ==>
        all[i] == if i < |prev.lines| then prev.lines[i] else FileLines(files[n - 1], look.art, extimg)[i - |prev.lines|];
    }
  }

  lemma {:induction false} JoinLinesWithoutCR(lines: seq<string>)
    requires LinesWithoutCR(lines)
    ensures '\r' !in JoinLines(lines)
  {
    if |lines| > 1 {
      JoinLinesWithoutCR(lines[1..]);
    }
  }

  /** A playlist text holds no carriage return when no stem does, so reading it back gives it unchanged. */
  lemma PlaylistTextReadsBack(files: seq<string>, withArt: bool, extimg: bool, fs: FileSystem)
    requires StemsWithoutCR(files)
    ensures ReadText(PlaylistText(files, withArt, extimg, fs)) == PlaylistText(files, withArt, extimg, fs)
  {
    var lines := BuildFrom(files, withArt, extimg, Finder(fs), |files|).lines;
    BuildWithoutCR(files, withArt, extimg, Finder(fs), |files|);
    JoinLinesWithoutCR(["#EXTM3U"] + lines);
  }

  // ---------------------------------------------------------------------
  // `process_sources`

  /** One configured source; a key the configuration lacks is `None`. */
  datatype Source = Source(name: Option<string>, path: Option<string>, recursive: bool)

  /** `not name or not path` fails: both are present and non-empty. */
  predicate Usable(src: Source) {
    src.name.Some? && src.name.value != "" && src.path.Some? && src.path.value != ""
  }

  /**
   * `Path(output_dir) / f"{name}.m3u8"`: with `pathlib`, a name that starts with `/`
   * replaces the directory.
   */
  function OutputPath(outputDir: string, name: string): string {
    if "/" <= name then name + ".m3u8" else Join(outputDir, name + ".m3u8")
  }

  /** The playlist file a source is to get and its text. */
  datatype Target = Target(out: string, text: string)

  /**
   * `process_sources`' skips: a source without a name or a path, or whose directory
   * yields no audio file, gets no playlist. Artwork tags are always on.
   */
  function PlanFor(src: Source, outputDir: string, withArt: bool, fs: FileSystem): (t: Option<Target>)
    ensures t.Some? ==> Usable(src) && t.value.out == OutputPath(outputDir, src.name.value)
  {
    if !Usable(src) then None
    else
      var files := ScanResult(src.path.value, src.recursive, fs);
      if files == [] then None
      else Some(Target(OutputPath(outputDir, src.name.value), PlaylistText(files, withArt, true, fs)))
  }

  function Planner(outputDir: string, withArt: bool, fs: FileSystem): Source -> Option<Target> {
    src => PlanFor(src, outputDir, withArt, fs)
  }

  /** The output files (path to text) and the number of playlists updated so far. */
  datatype Run = Run(disk: map<string, string>, updated: nat)

  /**
   * The end of `generate_playlist` for one source: a file that already reads back as
   * the text, or a write that fails (the paths in `unwritable`), leaves everything as
   * it was; otherwise the file gets the text and the count goes up.
   */
  function Store(t: Option<Target>, r: Run, unwritable: set<string>): (q: Run)
    ensures q.updated <= r.updated + 1
    ensures t.Some? && t.value.out !in unwritable ==>
      t.value.out in q.disk && ReadText(q.disk[t.value.out]) == ReadText(t.value.text)
  {
    match t
    case None => r
    case Some(t) =>
      if (t.out in r.disk && ReadText(r.disk[t.out]) == t.text) || t.out in unwritable then r
      else Run(r.disk[t.out := t.text], r.updated + 1)
  }

  /** `process_sources` over the first `n` sources. */
  function ProcessFrom(sources: seq<Source>, n: nat, plan: Source -> Option<Target>,
                       disk: map<string, string>, unwritable: set<string>): Run
    requires n <= |sources|
  {
    if n == 0 then Run(disk, 0)
    else Store(plan(sources[n - 1]), ProcessFrom(sources, n - 1, plan, disk, unwritable), unwritable)
  }

  /**
   * `process_sources`: no sources gives 0 at once; otherwise each usable source is
   * scanned and its playlist generated, and the answer counts the playlists written.
   */
  method ProcessSources(sources: seq<Source>, outputDir: string, withArt: bool, fs: FileSystem,
                        disk0: map<string, string>, unwritable: set<string>)
    returns (updated: nat, disk: map<string, string>)
    ensures updated == ProcessFrom(sources, |sources|, Planner(outputDir, withArt, fs), disk0, unwritable).updated
    ensures disk == ProcessFrom(sources, |sources|, Planner(outputDir, withArt, fs), disk0, unwritable).disk
  {
    disk := disk0;
    updated := 0;
    if |sources| == 0 {
      return;
    }
    var i := 0;
    while i < |sources|
      invariant i <= |sources|
      invariant updated == ProcessFrom(sources, i, Planner(outputDir, withArt, fs), disk0, unwritable).updated
      invariant disk == ProcessFrom(sources, i, Planner(outputDir, withArt, fs), disk0, unwritable).disk
    {
      var r := ProcessSource(sources[i], outputDir, withArt, fs, Run(disk, updated), unwritable);
      disk, updated := r.disk, r.updated;
      i := i + 1;
    }
  }

  /** One pass of `process_sources`' loop. */
  method ProcessSource(src: Source, outputDir: string, withArt: bool, fs: FileSystem,
                       r: Run, unwritable: set<string>) returns (q: Run)
    ensures q.disk == Store(Planner(outputDir, withArt, fs)(src), r, unwritable).disk
    ensures q.updated == Store(Planner(outputDir, withArt, fs)(src), r, unwritable).updated
  {
    q := r;
    if !Usable(src) {
      return;
    }
    var files := ScanDirectory(src.path.value, src.recursive, fs);
    if files == [] {
      return;
    }
    var out := OutputPath(outputDir, src.name.value);
    var existing := if out in r.disk then Some(ReadText(r.disk[out])) else None;
    var changed, written := GeneratePlaylist(files, withArt, true, fs, existing, out !in unwritable);
    if written.Some? {
      q := Run(r.disk[out := written.value], r.updated);
    }
    if changed {
      q := Run(q.disk, q.updated + 1);
    }
  }

  /** At most one playlist per source is updated. */
  lemma {:induction false} UpdatedAtMost(sources: seq<Source>, n: nat, plan: Source -> Option<Target>,
                                          disk: map<string, string>, unwritable: set<string>)
    requires n <= |sources|
    ensures ProcessFrom(sources, n, plan, disk, unwritable).updated <= n
  {
    if n > 0 {
      UpdatedAtMost(sources, n - 1, plan, disk, unwritable);
    }
  }

  /** Sources that get no playlist change nothing and count nothing. */
  lemma {:induction false} SkippedChangeNothing(sources: seq<Source>, n: nat, plan: Source -> Option<Target>,
                                                 disk: map<string, string>, unwritable: set<string>)
    requires n <= |sources|
    requires forall i :: 0 <= i < n ==> plan(sources[i]).None?
    ensures ProcessFrom(sources, n, plan, disk, unwritable).disk == disk
    ensures ProcessFrom(sources, n, plan, disk, unwritable).updated == 0
  {
    if n > 0 {
      SkippedChangeNothing(sources, n - 1, plan, disk, unwritable);
    }
  }

  /** Sources lacking a name or a path get no playlist. */
  lemma UnusableNoPlan(src: Source, outputDir: string, withArt: bool, fs: FileSystem)
    requires !Usable(src)
    ensures Planner(outputDir, withArt, fs)(src).None?
  {
  }

  /** An output file that is no source's playlist keeps its text, or stays absent. */
  lemma {:induction false} OthersUntouched(sources: seq<Source>, n: nat, plan: Source -> Option<Target>,
                                            disk: map<string, string>, unwritable: set<string>, p: string)
    requires n <= |sources|
    requires forall i :: 0 <= i < n && plan(sources[i]).Some? ==> plan(sources[i]).value.out != p
    ensures var r := ProcessFrom(sources, n, plan, disk, unwritable);
      (p in r.disk <==> p in disk) && (p in disk ==> r.disk[p] == disk[p])
  {
    if n > 0 {
      OthersUntouched(sources, n - 1, plan, disk, unwritable, p);
    }
  }

  /** Two names that both start with `/`, or both do not, name the same file only when they are equal. */
  lemma OutputPathInjective(outputDir: string, a: string, b: string)
    requires ("/" <= a) == ("/" <= b)
    requires OutputPath(outputDir, a) == OutputPath(outputDir, b)
    ensures a == b
  {
    var x, y := a + ".m3u8", b + ".m3u8";
    if "/" <= a {
    } else if outputDir == "." {
    } else if outputDir == "/" {
      assert x == ("/" + x)[1..];
      assert y == ("/" + y)[1..];
    } else {
      var k := |outputDir| + 1;
      assert x == (outputDir + "/" + x)[k..];
      assert y == (outputDir + "/" + y)[k..];
    }
    assert a == x[..|x| - 5];
    assert b == y[..|y| - 5];
  }

  /** No two sources that get a playlist share its file. */
  predicate DistinctTargets(sources: seq<Source>, plan: Source -> Option<Target>) {
    forall i, j :: 0 <= i < j < |sources| && plan(sources[i]).Some? && plan(sources[j]).Some? ==>
      plan(sources[i]).value.out != plan(sources[j]).value.out
  }

  /** Usable sources have pairwise different names. */
  predicate DistinctNames(sources: seq<Source>) {
    forall i, j :: 0 <= i < j < |sources| && Usable(sources[i]) && Usable(sources[j]) ==>
      sources[i].name != sources[j].name
  }

  /**
   * A name that starts with `/` can name the file of a different, plain name: `/out/x`
   * and `x` both write `/out/x.m3u8` under the output directory `/out`.
   */
  lemma AbsoluteNameShares(outputDir: string, name: string)
    requires outputDir != "." && outputDir != "/" && "/" <= outputDir && !("/" <= name)
    ensures outputDir + "/" + name != name
    ensures OutputPath(outputDir, outputDir + "/" + name) == OutputPath(outputDir, name)
  {
    var abs := outputDir + "/" + name;
    assert abs[..1] == outputDir[..1];
    assert "/" <= abs;
    assert abs + ".m3u8" == outputDir + "/" + (name + ".m3u8");
  }

  /** The names of usable sources all start with `/`, or none does. */
  predicate AlikeNames(sources: seq<Source>) {
    forall i, j :: 0 <= i < |sources| && 0 <= j < |sources| && Usable(sources[i]) && Usable(sources[j]) ==>
      ("/" <= sources[i].name.value) == ("/" <= sources[j].name.value)
  }

  /** Different names give different playlist files, when they are alike. */
  lemma NamesSeparateTargets(sources: seq<Source>, outputDir: string, withArt: bool, fs: FileSystem)
    requires DistinctNames(sources) && AlikeNames(sources)
    ensures DistinctTargets(sources, Planner(outputDir, withArt, fs))
  {
    var plan := Planner(outputDir, withArt, fs);
    forall i, j | 0 <= i < j < |sources| && plan(sources[i]).Some? && plan(sources[j]).Some?
      ensures plan(sources[i]).value.out != plan(sources[j]).value.out
    {
      if plan(sources[i]).value.out == plan(sources[j]).value.out {
        OutputPathInjective(outputDir, sources[i].name.value, sources[j].name.value);
      }
    }
  }

  /**
   * With distinct targets, once source `i` has been processed its playlist file holds
   * its text, or else the file it had before, which already read back as that text;
   * unless the write fails.
   */
  lemma {:induction false} PlaylistStays(sources: seq<Source>, i: nat, m: nat, plan: Source -> Option<Target>,
                                          disk: map<string, string>, unwritable: set<string>)
    requires i < m <= |sources| && DistinctTargets(sources, plan)
    requires plan(sources[i]).Some? && plan(sources[i]).value.out !in unwritable
    ensures var r := ProcessFrom(sources, m, plan, disk, unwritable);
      var t := plan(sources[i]).value;
      t.out in r.disk &&
      (r.disk[t.out] == t.text ||
       (t.out in disk && r.disk[t.out] == disk[t.out] && ReadText(disk[t.out]) == t.text))
    decreases m
  {
    if m - 1 > i {
      PlaylistStays(sources, i, m - 1, plan, disk, unwritable);
      if plan(sources[m - 1]).Some? {
        assert plan(sources[i]).value.out != plan(sources[m - 1]).value.out;
      }
    } else {
      var t := plan(sources[i]).value;
      forall j | 0 <= j < i && plan(sources[j]).Some? ensures plan(sources[j]).value.out != t.out {
        assert plan(sources[j]).value.out != plan(sources[i]).value.out;
      }
      OthersUntouched(sources, i, plan, disk, unwritable, t.out);
    }
  }

  /** Every playlist text holds no carriage return, so it reads back unchanged. */
  predicate TextsWithoutCR(sources: seq<Source>, plan: Source -> Option<Target>) {
    forall i :: 0 <= i < |sources| && plan(sources[i]).Some? ==> '\r' !in plan(sources[i]).value.text
  }

  /**
   * A second run over what the first one wrote: every file already reads back as its
   * text, provided no text holds a carriage return (one would read back as a newline).
   */
  lemma {:induction false} RerunFrom(sources: seq<Source>, n: nat, plan: Source -> Option<Target>,
                                      disk: map<string, string>, unwritable: set<string>)
    requires n <= |sources| && DistinctTargets(sources, plan) && TextsWithoutCR(sources, plan)
    ensures var first := ProcessFrom(sources, |sources|, plan, disk, unwritable).disk;
      var r := ProcessFrom(sources, n, plan, first, unwritable);
      r.disk == first && r.updated == 0
  {
    if n > 0 {
      RerunFrom(sources, n - 1, plan, disk, unwritable);
      var t := plan(sources[n - 1]);
      if t.Some? && t.value.out !in unwritable {
        PlaylistStays(sources, n - 1, |sources|, plan, disk, unwritable);
        assert '\r' !in t.value.text;
      }
    }
  }

  /**
   * With distinct, alike names, and no stem of a scanned file holding a carriage return,
   * running `process_sources` again on the same files writes nothing.
   */
  lemma RerunUpdatesNothing(sources: seq<Source>, outputDir: string, withArt: bool,
                            fs: FileSystem, disk: map<string, string>, unwritable: set<string>)
    requires DistinctNames(sources) && AlikeNames(sources)
    requires forall i :: 0 <= i < |sources| && Usable(sources[i]) ==>
      StemsWithoutCR(ScanResult(sources[i].path.value, sources[i].recursive, fs))
    ensures var plan := Planner(outputDir, withArt, fs);
      var first := ProcessFrom(sources, |sources|, plan, disk, unwritable).disk;
      var again := ProcessFrom(sources, |sources|, plan, first, unwritable);
      again.updated == 0 && again.disk == first
  {
    var plan := Planner(outputDir, withArt, fs);
    NamesSeparateTargets(sources, outputDir, withArt, fs);
    forall i | 0 <= i < |sources| && plan(sources[i]).Some?
      ensures '\r' !in plan(sources[i]).value.text
    {
      var files := ScanResult(sources[i].path.value, sources[i].recursive, fs);
      PlaylistTextReadsBack(files, withArt, true, fs);
    }
    RerunFrom(sources, |sources|, plan, disk, unwritable);
  }
}
