/**
 * utils/utils.go: GetBareSongName. The slice helpers of this file (Every, Some,
 * Includes, FilterEmptyStrings) are the same code as array-utils/array-utils.go
 * and are modelled by the ArrayUtils module.
 */
module Utils {
  import opened Wrappers
  import opened Text
  import StringUtils

  /** The music directory with exactly one '/' appended when it has none. */
  function DirectoryPrefix(musicPath: string): string {
    if HasSuffix(musicPath, "/") then musicPath else musicPath + "/"
  }

  /** GetBareSongName (utils/utils.go:32-38). */
  function GetBareSongName(song: string, musicPath: string): string {
    ReplaceFirst(song, DirectoryPrefix(musicPath), "")
  }

  /** The prefix that is removed always ends in '/', and a '/' is added only when missing. */
  lemma DirectoryPrefixEndsInSlash(musicPath: string)
    ensures HasSuffix(DirectoryPrefix(musicPath), "/")
    ensures HasSuffix(musicPath, "/") ==> DirectoryPrefix(musicPath) == musicPath
    ensures !HasSuffix(musicPath, "/") ==> DirectoryPrefix(musicPath) == musicPath + "/"
  {
  }

  /** A song path that does not contain the directory prefix comes back unchanged. */
  lemma BareNameWithoutDirectory(song: string, musicPath: string)
    requires !Contains(song, DirectoryPrefix(musicPath))
    ensures GetBareSongName(song, musicPath) == song
  {
  }

  /** A song path directly under the music directory loses that directory,
      whether or not musicPath was given with its trailing '/'. */
  lemma BareNameUnderDirectory(musicPath: string, rest: string)
    ensures GetBareSongName(DirectoryPrefix(musicPath) + rest, musicPath) == rest
  {
    var p := DirectoryPrefix(musicPath);
    var s := p + rest;
    assert s[..|p|] == p;
    PrefixContained(s, p);
    assert s[|p|..] == rest;
  }

  /** The two revisions differ when musicPath ends in '/': this one strips
      "/m/" from "/m/x", string-utils.go's leaves "/m/x" untouched. */
  lemma RevisionsDifferOnTrailingSlash()
    ensures GetBareSongName("/m/x", "/m/") == "x"
    ensures StringUtils.GetBareSongName("/m/x", "/m/") == "/m/x"
  {
    BareNameUnderDirectory("/m/", "x");
    assert DirectoryPrefix("/m/") + "x" == "/m/x";
    StringUtils.BareNameDoublesTrailingSlash();
  }
}
