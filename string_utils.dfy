/** string-utils/string-utils.go: GetBareSongName. */
module StringUtils {
  import opened Wrappers
  import opened Text

  /** GetBareSongName (string-utils/string-utils.go:25-27): removes the first
      occurrence of musicPath + "/" from the song path. */
  function GetBareSongName(song: string, musicPath: string): string {
    ReplaceFirst(song, musicPath + "/", "")
  }

  /** A song path that does not contain musicPath + "/" comes back unchanged. */
  lemma BareNameWithoutDirectory(song: string, musicPath: string)
    requires !Contains(song, musicPath + "/")
    ensures GetBareSongName(song, musicPath) == song
  {
  }

  /** A song path under the music directory loses exactly that leading directory. */
  lemma BareNameUnderDirectory(musicPath: string, rest: string)
    ensures GetBareSongName(musicPath + "/" + rest, musicPath) == rest
  {
    var s, p := musicPath + "/" + rest, musicPath + "/";
    assert s[..|p|] == p;
    PrefixContained(s, p);
    assert s[|p|..] == rest;
  }

  /** Only the first occurrence is removed: the result is the song path with the
      characters of that one occurrence cut out, and later occurrences stay. */
  lemma BareNameRemovesFirstOnly(song: string, musicPath: string)
    requires Contains(song, musicPath + "/")
    ensures exists i: nat :: OccursAt(song, musicPath + "/", i)
                        && (forall j :: 0 <= j < i ==> !OccursAt(song, musicPath + "/", j))
                        && GetBareSongName(song, musicPath) == song[..i] + song[i + |musicPath| + 1..]
  {
    var i := IndexOf(song, musicPath + "/").value;
    assert song[..i] + "" + song[i + |musicPath + "/"|..] == song[..i] + song[i + |musicPath| + 1..];
  }

  /** The separator is always added, even when musicPath already ends in '/':
      with musicPath "/m/" the pattern is "/m//", so "/m/x" is left as it is. */
  lemma BareNameDoublesTrailingSlash()
    ensures GetBareSongName("/m/x", "/m/") == "/m/x"
  {
    var s, p := "/m/x", "/m//";
    assert !OccursAt(s, p, 0) by { assert s[3] != p[3]; }
    assert IndexFrom(s, p, 0) == None;
  }
}
