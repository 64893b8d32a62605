/** The POSIX path operations the pipeline uses: joining an output directory
    with a file or folder name, and the video's name without its extension
    (`path.basename(videoPath, path.extname(videoPath))`). */
module Paths {
  import opened Runs

  predicate IsSlash(c: char) {
    c == '/'
  }

  predicate NotSlash(c: char) {
    c != '/'
  }

  predicate NotDot(c: char) {
    c != '.'
  }

  /** Splits a path at its last `/` into the part before and the final name;
      a path without `/` is all name. */
  function SplitPath(p: string): (parts: (string, string))
    ensures forall i :: 0 <= i < |parts.1| ==> parts.1[i] != '/'
    ensures p == parts.0 + "/" + parts.1 || (parts.0 == "" && p == parts.1)
  {
    var n := TrailingRun(p, NotSlash);
    if n == |p| then ("", p) else (p[..|p| - n - 1], p[|p| - n..])
  }

  /** A name without `/`: one path segment. */
  predicate IsSegment(name: string) {
    forall i :: 0 <= i < |name| ==> name[i] != '/'
  }

  /** `path.join(dir, name)` for a name that is one path segment: the
      directory, one `/` and the name. */
  function JoinPath(dir: string, name: string): (p: string)
    ensures |p| == |dir| + 1 + |name| && p[|dir|] == '/'
  {
    dir + "/" + name
  }

  /** Splitting a joined path at its last `/` gives back the directory and
      the name. */
  lemma SplitJoin(dir: string, name: string)
    requires IsSegment(name)
    ensures SplitPath(JoinPath(dir, name)) == (dir, name)
  {
    var s := JoinPath(dir, name);
    assert forall i :: |dir| + 1 <= i < |s| ==> s[i] == name[i - |dir| - 1];
    TrailingRunIs(s, NotSlash, |name|);
    assert s[..|dir|] == dir;
    assert s[|dir| + 1..] == name;
  }

  /** The last segment of a path once its trailing slashes are gone: what
      `path.basename` returns; `""` for the empty path and for `/`. */
  function Basename(p: string): (b: string)
    ensures forall i :: 0 <= i < |b| ==> b[i] != '/'
    ensures var t := DropWhileEnd(p, IsSlash);
      t == b || (|b| < |t| && t[|t| - |b| - 1] == '/' && t[|t| - |b|..] == b)
  {
    SplitPath(DropWhileEnd(p, IsSlash)).1
  }

  /** The extension of a last segment `b`, by the rules of `path.extname`:
      from the last `.` on, except that a segment without a `.` after its
      first character, and the segment `..`, have none. */
  function Extension(b: string): (ext: string)
    ensures |ext| <= |b| && ext == b[|b| - |ext|..]
    ensures ext != "" ==> ext[0] == '.' && |ext| < |b|
    ensures forall i :: 0 < i < |ext| ==> ext[i] != '.'
    ensures ext == "" <==> b == ".." || forall i :: 0 < i < |b| ==> b[i] != '.'
  {
    var t := TrailingRun(b, NotDot);
    if t == |b| || t == |b| - 1 || b == ".." then ""
    else
      var ext := b[|b| - t - 1..];
      assert b[|b| - t - 1] == '.' && ext[0] == '.';
      ext
  }

  /** `path.extname(p)`: a suffix of the path's last segment that starts
      with its last `.`; empty for `..` and for a segment without a `.` after
      its first character. */
  function ExtName(p: string): (ext: string)
    ensures var b := Basename(p);
      && |ext| <= |b| && ext == b[|b| - |ext|..]
      && (ext != "" ==> ext[0] == '.' && |ext| < |b|)
      && (forall i :: 0 < i < |ext| ==> ext[i] != '.')
      && (ext == "" <==> b == ".." || forall i :: 0 < i < |b| ==> b[i] != '.')
  {
    Extension(Basename(p))
  }

  /** A last segment with its extension cut off. */
  function Stem(b: string): (name: string)
    ensures name + Extension(b) == b
    ensures Extension(b) != "" ==> |name| > 0
  {
    var e := Extension(b);
    assert b[..|b| - |e|] + b[|b| - |e|..] == b;
    b[..|b| - |e|]
  }

  /** `path.basename(videoPath, path.extname(videoPath))`: the last segment
      with its extension cut off. */
  function VideoName(videoPath: string): (name: string)
    ensures name + ExtName(videoPath) == Basename(videoPath)
    ensures forall i :: 0 <= i < |name| ==> name[i] != '/'
  {
    var b := Basename(videoPath);
    var name := Stem(b);
    assert ExtName(videoPath) == Extension(b);
    assert forall i :: 0 <= i < |name| ==> name[i] == (name + Extension(b))[i];
    name
  }

  /** The last segment of a joined path is the name joined. */
  lemma BasenameOfJoin(dir: string, name: string)
    requires |name| > 0 && forall i :: 0 <= i < |name| ==> name[i] != '/'
    ensures Basename(JoinPath(dir, name)) == name
  {
    var p := JoinPath(dir, name);
    assert p[|p| - 1] == name[|name| - 1];
    TrailingRunIs(p, IsSlash, 0);
    assert DropWhileEnd(p, IsSlash) == p;
    SplitJoin(dir, name);
  }

  /** A segment other than `..` whose last `.` stands `k` characters from its
      end, with at least one character before it, has the `k + 1` characters
      from that `.` on as its extension. */
  lemma ExtensionAt(b: string, k: nat)
    requires k + 1 < |b| && b != ".." && b[|b| - k - 1] == '.'
    requires forall i :: |b| - k <= i < |b| ==> b[i] != '.'
    ensures Extension(b) == b[|b| - k - 1..]
  {
    TrailingRunIs(b, NotDot, k);
  }

  /** A video `<dir>/<stem><ext>`, whose extension starts with its only `.`,
      is named `<stem>`. */
  lemma VideoNameOfJoin(dir: string, stem: string, ext: string)
    requires |stem| > 0 && forall i :: 0 <= i < |stem| ==> stem[i] != '/'
    requires |ext| > 0 && ext[0] == '.' && forall i :: 0 < i < |ext| ==> ext[i] != '/' && ext[i] != '.'
    requires stem + ext != ".."
    ensures Basename(JoinPath(dir, stem + ext)) == stem + ext
    ensures ExtName(JoinPath(dir, stem + ext)) == ext
    ensures VideoName(JoinPath(dir, stem + ext)) == stem
  {
    var b := stem + ext;
    BasenameOfJoin(dir, b);
    assert b[|stem|..] == ext && b[..|stem|] == stem;
    ExtensionAt(b, |ext| - 1);
  }

  /** The command line's own example: the video `./videos/my-video.mp4` is
      named `my-video`. */
  lemma MyVideoName(p: string)
    requires p == "./videos/my-video.mp4"
    ensures ExtName(p) == ".mp4"
    ensures VideoName(p) == "my-video"
  {
    var dir, stem, ext := "./videos", "my-video", ".mp4";
    assert p == JoinPath(dir, stem + ext);
    VideoNameOfJoin(dir, stem, ext);
  }
}
