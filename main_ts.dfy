/**
 * The single-file TypeScript player, src/main.ts: its inline copy of the song
 * filter, which has no rule for a list of only exclusions, and the two pure steps
 * of its install command (choosing the target folder and building the video URL).
 */
module MainTs {
  import opened Wrappers
  import opened Text
  import opened SongFilter

  /** doesSongPass (src/main.ts:41-73), which decides by PassesByMatch. */
  method DoesSongPass(terms: seq<string>, songPath: string) returns (r: bool)
    ensures r == PassesByMatch(terms, songPath, IsJsSpace)
  {
    if |terms| == 0 {
      return true;
    }
    var passedOneTerm := false;
    var i := 0;
    while i < |terms|
      invariant 0 <= i <= |terms|
      invariant !ExcludedBefore(terms, i, songPath, IsJsSpace)
      invariant passedOneTerm == MatchedBefore(terms, i, songPath, IsJsSpace)
    {
      var isExclusion, matched := MatchTerm(terms[i], songPath, IsJsSpace);
      BeforeStep(terms, i, songPath, IsJsSpace, isExclusion, matched);
      if matched {
        if isExclusion {
          ExcludedEarly(terms, i + 1, songPath, IsJsSpace);
          return false;
        }
        passedOneTerm := true;
      }
      i := i + 1;
    }
    FlagsAtEnd(terms, songPath, IsJsSpace);
    return passedOneTerm;
  }

  /** The inline copy and src/does-song-pass.ts agree except on a list of only
      exclusions none of which matches, which only the latter passes. */
  lemma InlineAgainstModule(terms: seq<string>, songPath: string)
    ensures SongFilter.Passes(terms, songPath) <==>
              (PassesByMatch(terms, songPath, IsJsSpace) || (terms != [] && AllExclusions(terms) && !Excluded(terms, songPath, IsJsSpace)))
  {
    if terms != [] && AllExclusions(terms) {
      OnlyExclusionsNeverPass(terms, songPath, IsJsSpace);
    }
  }

  /* ---------------- install: target folder ---------------- */

  /** `name.toLowerCase().replace(/\s+/g, '-')` */
  function FolderKey(name: string): string {
    DashRuns(Lower(name), IsJsSpace)
  }

  /** The first of `folders` whose key is `key`, or "" when there is none. */
  function FirstWithKey(folders: seq<string>, key: string): string {
    if folders == [] then ""
    else if FolderKey(folders[0]) == key then folders[0]
    else FirstWithKey(folders[1..], key)
  }

  /** The folder chosen is the first entry with the same key as the argument; an
      entry named "" counts as no choice, as the falsy test does. */
  lemma {:induction false} FirstWithKeyIsFirst(folders: seq<string>, key: string)
    ensures var f := FirstWithKey(folders, key);
            f != "" ==> exists i :: 0 <= i < |folders| && folders[i] == f && FolderKey(f) == key
                                    && forall j :: 0 <= j < i ==> FolderKey(folders[j]) != key
    ensures (forall i :: 0 <= i < |folders| ==> FolderKey(folders[i]) != key) ==> FirstWithKey(folders, key) == ""
  {
    if folders != [] && FolderKey(folders[0]) != key {
      FirstWithKeyIsFirst(folders[1..], key);
      var f := FirstWithKey(folders, key);
      if f != "" {
        var i :| 0 <= i < |folders[1..]| && folders[1..][i] == f && FolderKey(f) == key
                 && forall j :: 0 <= j < i ==> FolderKey(folders[1..][j]) != key;
        assert folders[i + 1] == f;
        assert forall j :: 0 <= j < i + 1 ==> FolderKey(folders[j]) != key by {
          forall j | 0 <= j < i + 1
            ensures FolderKey(folders[j]) != key
          {
            if j > 0 {
              assert folders[j] == folders[1..][j - 1];
            }
          }
        }
      }
      if forall i :: 0 <= i < |folders| ==> FolderKey(folders[i]) != key {
        assert forall i :: 0 <= i < |folders[1..]| ==> FolderKey(folders[1..][i]) != key by {
          forall i | 0 <= i < |folders[1..]|
            ensures FolderKey(folders[1..][i]) != key
          {
            assert folders[1..][i] == folders[i + 1];
          }
        }
      }
    }
  }

  /** The folder loop of the install handler (src/main.ts:250-266); `possibleFolders`
      is the listing of the music directory. */
  method SelectFolder(folder: string, possibleFolders: seq<string>) returns (r: Result<string, string>)
    ensures var f := FirstWithKey(possibleFolders, FolderKey(folder));
            r == if f == "" then Err("Invalid folder: " + folder) else Ok(f)
  {
    var adjustedFolder := FolderKey(folder);
    var selectedFolder := "";
    var i := 0;
    while i < |possibleFolders|
      invariant 0 <= i <= |possibleFolders|
      invariant FirstWithKey(possibleFolders, adjustedFolder) == FirstWithKey(possibleFolders[i..], adjustedFolder)
    {
      assert possibleFolders[i..][1..] == possibleFolders[i + 1..];
      if FolderKey(possibleFolders[i]) == adjustedFolder {
        selectedFolder := possibleFolders[i];
        break;
      }
      i := i + 1;
    }
    assert selectedFolder == FirstWithKey(possibleFolders, adjustedFolder);
    if selectedFolder == "" {
      return Err("Invalid folder: " + folder);
    }
    return Ok(selectedFolder);
  }

  /* ---------------- install: video URL ---------------- */

  const WatchPrefix := "https://www.youtube.com/watch?v="

  /** An id that is already an https URL is kept, any other is taken as a video id
      (src/main.ts:268-270; the same rule is in commands/install.go:185-189). */
  function YoutubeUrl(id: string): (url: string)
    ensures HasPrefix(url, "https://")
  {
    if HasPrefix(id, "https://") then id else WatchPrefix + id
  }

  /** A built URL is kept as it is, and a bare id is recoverable from its URL. */
  lemma YoutubeUrlIdempotent(id: string)
    ensures YoutubeUrl(YoutubeUrl(id)) == YoutubeUrl(id)
    ensures !HasPrefix(id, "https://") ==> YoutubeUrl(id)[|WatchPrefix|..] == id
  {
  }
}
