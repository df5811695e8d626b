/** Where a job's files go: `<dir>/<sanitised artist> - <sanitised title>.mp3`
    and the lyrics sidecar `<same base>.lrc`. */
module Artifacts {
  import opened Sanitizer

  const Sep: char := '/'
  const BaseSeparator: string := " - "
  const AudioExt: string := ".mp3"
  const LyricsExt: string := ".lrc"

  /** `posixpath.join(dir, name)` for two components: an absolute `name` replaces `dir`,
      and a separator is inserted unless `dir` is empty or already ends with one. */
  function PathJoin(dir: string, name: string): string {
    if |name| > 0 && name[0] == Sep then name
    else if |dir| == 0 || dir[|dir| - 1] == Sep then dir + name
    else dir + [Sep] + name
  }

  /** What `PathJoin` puts in front of a relative name. */
  function DirPrefix(dir: string): (p: string)
    ensures |dir| <= |p|
    ensures p[..|dir|] == dir
    ensures |p| == 0 || p[|p| - 1] == Sep
  {
    if |dir| == 0 || dir[|dir| - 1] == Sep then dir else dir + [Sep]
  }

  /** The shared base name of a track's files. It never contains a path separator
      (neither `/` nor `\`) and never starts with one, so it always names a file
      directly inside the download directory. */
  function BaseName(artist: string, title: string): (b: string)
    ensures Sep !in b && '\\' !in b
    ensures |b| >= |BaseSeparator|
  {
    var a := Sanitize(artist);
    var t := Sanitize(title);
    CleanHasNoSeparator(a);
    CleanHasNoSeparator(t);
    a + BaseSeparator + t
  }

  lemma CleanHasNoSeparator(s: string)
    requires NoReserved(s)
    ensures Sep !in s && '\\' !in s
  {
    assert forall i :: 0 <= i < |s| ==> !IsReserved(s[i]);
  }

  /** Joining a relative name to a directory is plain concatenation after `DirPrefix`. */
  lemma PathJoinRelative(dir: string, name: string)
    requires |name| == 0 || name[0] != Sep
    ensures PathJoin(dir, name) == DirPrefix(dir) + name
  {
  }

  /** The audio file: `os.path.join(dir, base) + ".mp3"`. */
  function AudioPath(dir: string, artist: string, title: string): (p: string)
    ensures p == DirPrefix(dir) + BaseName(artist, title) + AudioExt
  {
    var b := BaseName(artist, title);
    PathJoinRelative(dir, b);
    PathJoin(dir, b) + AudioExt
  }

  /** The lyrics sidecar: `os.path.join(dir, base + ".lrc")`. */
  function LyricsPath(dir: string, artist: string, title: string): (p: string)
    ensures p == DirPrefix(dir) + BaseName(artist, title) + LyricsExt
  {
    var b := BaseName(artist, title);
    PathJoinRelative(dir, b + LyricsExt);
    PathJoin(dir, b + LyricsExt)
  }

  /** The audio file and the sidecar of one track live in the same directory, share
      everything but their four-character extension, and the part after the directory
      holds no separator. */
  lemma SidecarSharesBase(dir: string, artist: string, title: string)
    ensures var audio := AudioPath(dir, artist, title);
            var lyrics := LyricsPath(dir, artist, title);
            var stem := DirPrefix(dir) + BaseName(artist, title);
            && |audio| == |lyrics| == |stem| + 4
            && audio[..|stem|] == lyrics[..|stem|] == stem
            && audio[|stem|..] == AudioExt
            && lyrics[|stem|..] == LyricsExt
            && Sep !in audio[|DirPrefix(dir)|..|stem|]
  {
    var stem := DirPrefix(dir) + BaseName(artist, title);
    assert stem[|DirPrefix(dir)|..] == BaseName(artist, title);
  }

  /** Two tracks' audio files coincide exactly when their base names do: the only
      collisions are those of the sanitised `artist - title` pair. */
  lemma {:induction false} AudioPathCollision(dir: string, a1: string, t1: string, a2: string, t2: string)
    ensures AudioPath(dir, a1, t1) == AudioPath(dir, a2, t2) <==> BaseName(a1, t1) == BaseName(a2, t2)
  {
    var p1 := AudioPath(dir, a1, t1);
    var p2 := AudioPath(dir, a2, t2);
    var d := DirPrefix(dir);
    if p1 == p2 {
      assert p1[|d|..|p1| - |AudioExt|] == BaseName(a1, t1);
      assert p2[|d|..|p2| - |AudioExt|] == BaseName(a2, t2);
    }
  }
}
