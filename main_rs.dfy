/**
 * The Rust player, src/main.rs: its song filter, the walk that collects the
 * passing songs up to a limit, and the play command's list of songs for vlc.
 * The music directory is the home directory followed by "/Music".
 */
module MainRs {
  import opened Wrappers
  import opened Text
  import opened SongFilter

  /* ---------------- the path the terms are matched against ---------------- */

  /** As written (src/main.rs:70-78): the path is ASCII lower-cased and then every
      occurrence of the music directory, as spelt, is removed. */
  function WrittenSongPath(musicPath: string, songPath: string): string {
    ReplaceAll(Lower(songPath), musicPath, "")
  }

  /** The music directory ends in "Music", whose 'M' a lower-cased path never
      holds: nothing is removed and the terms see the whole path. */
  lemma WrittenPathKeepsMusicDirectory(musicPath: string, songPath: string)
    requires HasSuffix(musicPath, "Music")
    ensures WrittenSongPath(musicPath, songPath) == Lower(songPath)
  {
    var k := |musicPath| - 5;
    assert musicPath[k..][0] == 'M';
    LowerLacksUpper(songPath, musicPath, k);
    ReplaceAllAbsent(Lower(songPath), musicPath, "");
  }

  /** The decision as written. */
  predicate WrittenPasses(terms: seq<string>, musicPath: string, songPath: string) {
    PassesByMatch(terms, WrittenSongPath(musicPath, songPath), IsUnicodeSpace)
  }

  /** The lower-cased path of a song under the music directory holds "music". */
  lemma LoweredHoldsMusic(home: string, rest: string)
    ensures Contains(Lower(home + "/Music" + rest), "music")
  {
    LowerAppend(home + "/", "Music" + rest);
    LowerAppend("Music", rest);
    assert Lower("Music") == "music";
    assert home + "/Music" + rest == (home + "/") + ("Music" + rest);
    var lowered := Lower(home + "/") + "music" + Lower(rest);
    assert Lower("Music" + rest) == "music" + Lower(rest);
    assert Lower(home + "/Music" + rest) == Lower(home + "/") + Lower("Music" + rest);
    assert Lower(home + "/Music" + rest) == lowered;
    var at := |Lower(home + "/")|;
    assert lowered[at..at + 5] == "music";
    ContainsAt(lowered, "music", at);
  }

  /** So the term "music" passes every song under the music directory. */
  lemma MusicTermPassesEverySong(home: string, rest: string)
    ensures WrittenPasses(["music"], home + "/Music", home + "/Music" + rest)
  {
    var musicPath := home + "/Music";
    var songPath := musicPath + rest;
    assert HasSuffix(musicPath, "Music") by {
      assert musicPath[|musicPath| - 5..] == "Music";
    }
    WrittenPathKeepsMusicDirectory(musicPath, songPath);
    LoweredHoldsMusic(home, rest);
    MusicTermMatches(Lower(songPath));
  }

  /** The single term "music" passes any path that holds it. */
  lemma MusicTermMatches(path: string)
    requires Contains(path, "music")
    ensures PassesByMatch(["music"], path, IsUnicodeSpace)
  {
    assert "music"[..1] == "m";
    assert Lower("music") == "music";
    assert Stripped("music") == "music";
    SingleWordMatches("music", path, IsUnicodeSpace);
    var terms := ["music"];
    assert terms[0] == "music";
    assert !IsExclusion("music");
    assert Matched(terms, path, IsUnicodeSpace);
    assert !Excluded(terms, path, IsUnicodeSpace);
  }

  /** As evidently intended: the lower-cased music directory is removed from the
      lower-cased path. */
  function SongPath(musicPath: string, songPath: string): string {
    ReplaceAll(Lower(songPath), Lower(musicPath), "")
  }

  /** A song below the music directory is matched by its path below it. */
  lemma SongPathBelowMusic(musicPath: string, rest: string)
    requires musicPath != []
    requires !Contains(Lower(rest), Lower(musicPath))
    ensures SongPath(musicPath, musicPath + rest) == Lower(rest)
  {
    LowerAppend(musicPath, rest);
    ReplaceAllPrefix(Lower(musicPath), Lower(rest), "");
    ReplaceAllAbsent(Lower(rest), Lower(musicPath), "");
  }

  /** What does_song_pass decides, with the corrected path. */
  predicate Passes(terms: seq<string>, musicPath: string, songPath: string) {
    PassesByMatch(terms, SongPath(musicPath, songPath), IsUnicodeSpace)
  }

  /** does_song_pass (src/main.rs:51-94), with the music directory lower-cased
      before it is removed. */
  method DoesSongPass(terms: seq<string>, musicPath: string, songPath: string) returns (r: bool)
    ensures r == Passes(terms, musicPath, songPath)
  {
    if |terms| == 0 {
      return true;
    }
    ghost var p := SongPath(musicPath, songPath);
    var passedOneTerm := false;
    var i := 0;
    while i < |terms|
      invariant 0 <= i <= |terms|
      invariant !ExcludedBefore(terms, i, p, IsUnicodeSpace)
      invariant passedOneTerm == MatchedBefore(terms, i, p, IsUnicodeSpace)
    {
      var isExclusion, matched := CheckTerm(terms[i], musicPath, songPath);
      BeforeStep(terms, i, p, IsUnicodeSpace, isExclusion, matched);
      if matched {
        if isExclusion {
          ExcludedEarly(terms, i + 1, p, IsUnicodeSpace);
          return false;
        }
        passedOneTerm := true;
      }
      i := i + 1;
    }
    FlagsAtEnd(terms, p, IsUnicodeSpace);
    return passedOneTerm;
  }

  /** One term of the loop (src/main.rs:59-92): whether it is an exclusion, and
      whether all its sections match the song's path. */
  method CheckTerm(term: string, musicPath: string, songPath: string) returns (isExclusion: bool, matched: bool)
    ensures isExclusion == IsExclusion(term)
    ensures matched == SectionsMatch(Stripped(term), SongPath(musicPath, songPath), IsUnicodeSpace)
  {
    var path := ReplaceAll(Lower(songPath), Lower(musicPath), "");
    isExclusion, matched := MatchTerm(term, path, IsUnicodeSpace);
  }

  /** There is no all-exclusions exception: only exclusions never pass a song. */
  lemma OnlyExclusionsRejectEverySong(terms: seq<string>, musicPath: string, songPath: string)
    requires terms != [] && AllExclusions(terms)
    ensures !Passes(terms, musicPath, songPath)
  {
    OnlyExclusionsNeverPass(terms, SongPath(musicPath, songPath), IsUnicodeSpace);
  }

  /** The two paths differ on an ordinary song: as written the term "music" passes
      "/h/Music/a.mp3", with the corrected path it does not. */
  lemma CorrectedFilterDiffers()
    ensures WrittenPasses(["music"], "/h/Music", "/h/Music/a.mp3")
    ensures !Passes(["music"], "/h/Music", "/h/Music/a.mp3")
  {
    ExampleWritten();
    ExampleSongPath();
    ExampleMisses();
  }

  lemma ExampleWritten()
    ensures WrittenPasses(["music"], "/h/Music", "/h/Music/a.mp3")
  {
    MusicTermPassesEverySong("/h", "/a.mp3");
    assert "/h" + "/Music" == "/h/Music";
    assert "/h" + "/Music" + "/a.mp3" == "/h/Music/a.mp3";
  }

  lemma ExampleSongPath()
    ensures SongPath("/h/Music", "/h/Music/a.mp3") == "/a.mp3"
  {
    assert "/h/Music" + "/a.mp3" == "/h/Music/a.mp3";
    assert Lower("/a.mp3") == "/a.mp3" by {
      assert forall i :: 0 <= i < 6 ==> LowerChar("/a.mp3"[i]) == "/a.mp3"[i];
    }
    assert !Contains("/a.mp3", "/h/music") by {
      var r := IndexOf("/a.mp3", "/h/music");
      assert r.Some? ==> OccursAt("/a.mp3", "/h/music", r.value);
    }
    assert Lower("/h/Music") == "/h/music" by {
      assert forall i :: 0 <= i < 8 ==> LowerChar("/h/Music"[i]) == "/h/music"[i];
    }
    SongPathBelowMusic("/h/Music", "/a.mp3");
  }

  lemma ExampleMisses()
    ensures !PassesByMatch(["music"], "/a.mp3", IsUnicodeSpace)
  {
    assert !Contains("/a.mp3", "music") by {
      var r := IndexOf("/a.mp3", "music");
      assert r.Some? ==> OccursAt("/a.mp3", "music", r.value);
    }
    SingleWordMatches("music", "/a.mp3", IsUnicodeSpace);
    var terms := ["music"];
    assert terms[0] == "music";
    assert Lower("music") == "music";
    assert Stripped("music") == "music";
    assert !SectionsMatch(Stripped(terms[0]), "/a.mp3", IsUnicodeSpace);
    assert !Matched(terms, "/a.mp3", IsUnicodeSpace);
  }

  /** The two agree whenever the music directory has no upper-case letter. */
  lemma CorrectedAgreesOnLowerDirectory(terms: seq<string>, musicPath: string, songPath: string)
    requires Lower(musicPath) == musicPath
    ensures Passes(terms, musicPath, songPath) == WrittenPasses(terms, musicPath, songPath)
  {
  }

  /* ---------------- collecting songs ---------------- */

  /** One entry of the directory walk, in walk order (entries that fail to read are
      already dropped). */
  datatype Entry = Entry(path: string, isDir: bool)

  predicate Selected(e: Entry, terms: seq<string>, musicPath: string) {
    !e.isDir && Passes(terms, musicPath, e.path)
  }

  /** The paths of the passing files of the walk, in walk order. */
  function Passing(entries: seq<Entry>, terms: seq<string>, musicPath: string): (r: seq<string>)
    ensures |r| <= |entries|
    ensures forall p :: p in r ==> exists e :: e in entries && e.path == p && Selected(e, terms, musicPath)
  {
    if entries == [] then []
    else
      var last := entries[|entries| - 1];
      var init := entries[..|entries| - 1];
      assert forall e :: e in init ==> e in entries;
      Passing(init, terms, musicPath) + (if Selected(last, terms, musicPath) then [last.path] else [])
  }

  /** A longer walk only adds songs at the end. */
  lemma {:induction false} PassingPrefix(entries: seq<Entry>, i: nat, terms: seq<string>, musicPath: string)
    requires i <= |entries|
    ensures Passing(entries[..i], terms, musicPath) <= Passing(entries, terms, musicPath)
    decreases |entries| - i
  {
    if i < |entries| {
      PassingPrefix(entries, i + 1, terms, musicPath);
      assert entries[..i + 1][..i] == entries[..i];
    } else {
      assert entries[..i] == entries;
    }
  }

  /** The first `n` elements, or all of them when there are fewer. */
  function Take<T>(s: seq<T>, n: nat): (r: seq<T>)
    ensures |r| <= n && r <= s
    ensures |s| <= n ==> r == s
    ensures n <= |s| ==> |r| == n
  {
    if |s| <= n then s else s[..n]
  }

  /** get_songs_by_terms (src/main.rs:96-118): the first `limit` passing files of
      the walk; the walk stops at the first passing file past the limit. */
  method GetSongsByTerms(entries: seq<Entry>, terms: seq<string>, musicPath: string, limit: nat)
    returns (chosen: seq<string>)
    ensures chosen == Take(Passing(entries, terms, musicPath), limit)
  {
    chosen := [];
    var i := 0;
    while i < |entries|
      invariant 0 <= i <= |entries|
      invariant chosen == Passing(entries[..i], terms, musicPath)
      invariant |chosen| <= limit
    {
      assert entries[..i + 1][..i] == entries[..i];
      var entry := entries[i];
      if entry.isDir {
        i := i + 1;
        continue;
      }
      var passes := DoesSongPass(terms, musicPath, entry.path);
      if passes {
        if |chosen| == limit {
          PassingPrefix(entries, i, terms, musicPath);
          PassingPrefix(entries, i + 1, terms, musicPath);
          assert |Passing(entries[..i + 1], terms, musicPath)| == limit + 1;
          return chosen;
        }
        chosen := chosen + [entry.path];
      }
      i := i + 1;
    }
    assert entries[..i] == entries;
  }

  /* ---------------- the play command ---------------- */

  /** What the play command ends in. `Panic` is the unwrap of a negative limit. */
  datatype Outcome =
    | PlayAll(args: seq<string>)
    | PrintPaths(songs: seq<string>)
    | Play(args: seq<string>)
    | Failure(message: string)
    | Panic

  const DefaultLimit: nat := 500

  /** The song list the command settles on, in terms of the first `limit` passing
      songs: the same songs, at most `limit` of them, in walk order unless a sort
      by time was asked for. */
  predicate SettledSongs(songs: seq<string>, first: seq<string>, limit: nat, sorted: bool) {
    multiset(songs) == multiset(first) && |songs| <= limit && (!sorted ==> songs == first)
  }

  /** The limit in effect: 500 when none is given (src/main.rs:174-175). */
  function LimitOf(limit: Option<int>): int {
    if limit.Some? then limit.value else DefaultLimit
  }

  /** The sorts and the truncation between collecting and playing
      (src/main.rs:210-221). Collecting already keeps at most `limit` songs, so the
      truncation never shortens the list. `sortByNew` is the sort with the comparator
      of src/main.rs:197-208, which compares the first song's time with the second's
      and so puts the OLDEST song first, whatever its name says; the model only uses
      that it reorders. */
  method ArrangeSongs(songs: seq<string>, limit: nat, newOnly: bool, playNewFirst: bool, deleteOldFirst: bool,
                      sortByNew: seq<string> -> seq<string>)
    returns (arranged: seq<string>)
    requires |songs| <= limit
    requires forall s :: multiset(sortByNew(s)) == multiset(s)
    ensures SettledSongs(arranged, songs, limit, newOnly || deleteOldFirst || playNewFirst)
  {
    arranged := songs;
    if newOnly || deleteOldFirst {
      arranged := sortByNew(arranged);
    }
    assert |arranged| == |multiset(arranged)| == |multiset(songs)| == |songs|;
    arranged := Take(arranged, limit);
    if playNewFirst && !newOnly && !deleteOldFirst {
      arranged := sortByNew(arranged);
      assert |arranged| == |multiset(arranged)| == |multiset(songs)|;
    }
  }

  /** The Play branch of main (src/main.rs:162-255). `sortByNew` is the sort by file
      time, which only reorders; vlc is started by the caller. */
  method PlayCommand(limit: Option<int>, terms: seq<string>, dryPaths: bool, newOnly: bool, playNewFirst: bool,
                     deleteOldFirst: bool, entries: seq<Entry>, musicPath: string,
                     sortByNew: seq<string> -> seq<string>)
    returns (outcome: Outcome)
    requires forall s :: multiset(sortByNew(s)) == multiset(s)
    ensures outcome.Panic? <==> LimitOf(limit) < 0
    ensures outcome.PlayAll? <==>
              LimitOf(limit) >= 0 && limit.None? && terms == [] && !dryPaths && !playNewFirst && !newOnly
    ensures outcome.PlayAll? ==> outcome.args == ["--recursive=expand", musicPath]
    ensures !outcome.Panic? && !outcome.PlayAll? ==>
              PlaysMatched(outcome, Take(Passing(entries, terms, musicPath), LimitOf(limit)), LimitOf(limit),
                           dryPaths, newOnly, playNewFirst, deleteOldFirst)
  {
    var hasLimit := limit.Some?;
    var value := if limit.Some? then limit.value else DefaultLimit;
    if value < 0 {
      return Panic;
    }
    var n: nat := value;
    if !hasLimit && |terms| == 0 && !dryPaths && !playNewFirst && !newOnly {
      return PlayAll(["--recursive=expand", musicPath]);
    }
    outcome := PlayMatching(entries, terms, musicPath, n, dryPaths, newOnly, playNewFirst, deleteOldFirst, sortByNew);
  }

  /** What the command does with the first `limit` matching songs `first`: nothing
      matched is a failure; otherwise the settled list is printed or handed to vlc,
      followed by "--no-random" when the order is to be kept. */
  ghost predicate PlaysMatched(outcome: Outcome, first: seq<string>, limit: nat, dryPaths: bool, newOnly: bool,
                               playNewFirst: bool, deleteOldFirst: bool)
  {
    var sorted := newOnly || deleteOldFirst || playNewFirst;
    if first == [] then outcome == Failure("Didn't match anything")
    else if dryPaths then outcome.PrintPaths? && SettledSongs(outcome.songs, first, limit, sorted)
    else
      && outcome.Play?
      && var k := |outcome.args| - (if newOnly || playNewFirst then 1 else 0);
      && 0 < k <= |outcome.args|
      && SettledSongs(outcome.args[..k], first, limit, sorted)
      && outcome.args[k..] == (if newOnly || playNewFirst then ["--no-random"] else [])
  }

  /** The collection and what follows it (src/main.rs:207-253). */
  method PlayMatching(entries: seq<Entry>, terms: seq<string>, musicPath: string, n: nat, dryPaths: bool,
                      newOnly: bool, playNewFirst: bool, deleteOldFirst: bool,
                      sortByNew: seq<string> -> seq<string>)
    returns (outcome: Outcome)
    requires forall s :: multiset(sortByNew(s)) == multiset(s)
    ensures PlaysMatched(outcome, Take(Passing(entries, terms, musicPath), n), n,
                         dryPaths, newOnly, playNewFirst, deleteOldFirst)
  {
    var songs := GetSongsByTerms(entries, terms, musicPath, n);
    if |songs| == 0 {
      return Failure("Didn't match anything");
    }
    ghost var first := songs;
    songs := ArrangeSongs(songs, n, newOnly, playNewFirst, deleteOldFirst, sortByNew);
    assert |songs| == |multiset(songs)| == |multiset(first)| == |first|;
    if dryPaths {
      return PrintPaths(songs);
    }
    var args := VlcArgs(songs, newOnly || playNewFirst);
    return Play(args);
  }

  /** vlc's arguments: the songs, then "--no-random" when the order is to be kept
      (src/main.rs:250-252). */
  method VlcArgs(songs: seq<string>, keepOrder: bool) returns (args: seq<string>)
    ensures |args| == |songs| + (if keepOrder then 1 else 0)
    ensures args[..|songs|] == songs
    ensures args[|songs|..] == (if keepOrder then ["--no-random"] else [])
  {
    args := songs;
    if keepOrder {
      args := args + ["--no-random"];
    }
    assert args[..|songs|] == songs;
  }
}
