/**
 * The tag library of the Go program, commands/tags/tags.go: the flag rules of the
 * tags command, the change of one tag's songs (create, append or replace) with
 * the playlist file written beside it, and the deletion of a tag. The library is
 * the map from tag names to tags that tags.json holds.
 */
module Tags {
  import opened Wrappers
  import opened Text
  import opened ArrayUtils

  /** A tag as tags.json stores it (commands/tags/tags.go:27-31); times are Unix seconds. */
  datatype Tag = Tag(songs: seq<string>, creationTime: int, modifiedTime: int)

  /* ---------------- flags ---------------- */

  datatype Flags = Flags(edit: bool, check: bool, shouldDelete: bool)

  /** The flag combinations the tags command refuses, with its messages, in the
      order it tests them (commands/tags/tags.go:104-116). */
  function FlagError(f: Flags, positional: seq<string>): (r: Option<string>)
    ensures r.None? <==> !(f.shouldDelete && (f.edit || positional == [])) && !(f.check && f.edit)
    ensures f.shouldDelete && f.edit ==> r == Some("can't have --delete and --editor together")
  {
    if f.shouldDelete && f.edit then Some("can't have --delete and --editor together")
    else if f.shouldDelete && positional == [] then Some("can't use --delete without a tag")
    else if f.check && f.edit then Some("can't have --check and --editor together")
    else None
  }

  /* ---------------- the songs of a changed tag ---------------- */

  /** The append loop (commands/tags/tags.go:307-311) as a function of the songs
      handed in so far: each non-empty song not yet in the list is added. */
  function AppendNew(existing: seq<string>, songs: seq<string>): seq<string> {
    if songs == [] then existing
    else
      var prev := AppendNew(existing, songs[..|songs| - 1]);
      var song := songs[|songs| - 1];
      if song != "" && song !in prev then prev + [song] else prev
  }

  predicate NoDuplicates(s: seq<string>) {
    forall i, j :: 0 <= i < j < |s| ==> s[i] != s[j]
  }

  /** Appending keeps the existing songs first and in order, adds exactly the
      non-empty songs that were missing, and brings in no duplicate. */
  lemma {:induction false} AppendNewSpec(existing: seq<string>, songs: seq<string>)
    ensures existing <= AppendNew(existing, songs)
    ensures forall s :: s in AppendNew(existing, songs) <==> s in existing || (s in songs && s != "")
    ensures NoDuplicates(existing) ==> NoDuplicates(AppendNew(existing, songs))
  {
    if songs != [] {
      var init := songs[..|songs| - 1];
      AppendNewSpec(existing, init);
      assert songs == init + [songs[|songs| - 1]];
    }
  }

  /** The tag ChangeSongsInTag stores (commands/tags/tags.go:299-314, 341): a new tag
      gets the non-empty songs and two equal times; an existing tag keeps its
      creation time and gets the appended or the replacing songs. */
  function ChangedTag(tags: map<string, Tag>, tagName: string, songs: seq<string>, shouldAppend: bool, now: int): Tag {
    if tagName !in tags then Tag(NonEmpty(songs), now, now)
    else if shouldAppend then Tag(AppendNew(tags[tagName].songs, songs), tags[tagName].creationTime, now)
    else Tag(NonEmpty(songs), tags[tagName].creationTime, now)
  }

  lemma ChangedTagSpec(tags: map<string, Tag>, tagName: string, songs: seq<string>, shouldAppend: bool, now: int)
    ensures var t := ChangedTag(tags, tagName, songs, shouldAppend, now);
            && t.modifiedTime == now
            && t.creationTime == (if tagName in tags then tags[tagName].creationTime else now)
            && (tagName !in tags || !shouldAppend ==> forall s :: s in t.songs <==> s in songs && s != "")
            && (tagName in tags && shouldAppend ==> tags[tagName].songs <= t.songs)
  {
    NonEmptyMembers(songs);
    if tagName in tags && shouldAppend {
      AppendNewSpec(tags[tagName].songs, songs);
    }
  }

  /* ---------------- the playlist file ---------------- */

  /** "#EXTM3U\n#PLAYLIST:<name>\n" */
  function Header(tagName: string): string {
    "#EXTM3U\n#PLAYLIST:" + tagName + "\n"
  }

  /** What stat and read say about the playlist file before an append. */
  datatype PlaylistFile = Missing | StatFailed(message: string) | Present(content: Result<string, string>)

  /** The text the lines are appended to (commands/tags/tags.go:316-333): the header,
      except in append mode when the file exists, where it is the file's text. */
  function PlaylistStart(tagName: string, shouldAppend: bool, file: PlaylistFile): Result<string, string> {
    if !shouldAppend then Ok(Header(tagName))
    else match file
      case Missing => Ok(Header(tagName))
      case StatFailed(m) => Err(m)
      case Present(c) => c
  }

  /** The lines for the songs, "" skipped, each path made relative to the playlists
      directory by `relativePath` (filepath.Rel); the first failure stops it. */
  function PlaylistLines(songs: seq<string>, relativePath: string -> Result<string, string>): Result<seq<string>, string> {
    if songs == [] then Ok([])
    else
      match PlaylistLines(songs[..|songs| - 1], relativePath)
      case Err(e) => Err(e)
      case Ok(lines) =>
        var song := songs[|songs| - 1];
        if song == "" then Ok(lines)
        else match relativePath(song)
          case Err(e) => Err(e)
          case Ok(p) => Ok(lines + [p + "\n"])
  }

  /** One line per non-empty song, in order, holding its relative path. */
  lemma {:induction false} PlaylistLinesSpec(songs: seq<string>, relativePath: string -> Result<string, string>)
    ensures PlaylistLines(songs, relativePath).Ok? <==>
              forall i :: 0 <= i < |NonEmpty(songs)| ==> relativePath(NonEmpty(songs)[i]).Ok?
    ensures PlaylistLines(songs, relativePath).Ok? ==>
              var lines := PlaylistLines(songs, relativePath).value;
              |lines| == |NonEmpty(songs)| &&
              forall i :: 0 <= i < |lines| ==> lines[i] == relativePath(NonEmpty(songs)[i]).value + "\n"
  {
    if songs != [] {
      var init := songs[..|songs| - 1];
      var last := songs[|songs| - 1];
      PlaylistLinesSpec(init, relativePath);
      assert songs == init + [last];
      NonEmptyAppend(init, [last]);
      assert NonEmpty([last]) == if last == "" then [] else [last];
      var kept := NonEmpty(init);
      if last != "" {
        assert NonEmpty(songs) == kept + [last];
        assert forall i :: 0 <= i < |kept| ==> NonEmpty(songs)[i] == kept[i];
        assert NonEmpty(songs)[|kept|] == last;
      } else {
        assert NonEmpty(songs) == kept;
      }
    }
  }

  /** updateAPlaylistFile (commands/tags/tags.go:86-101): the text it writes. The
      result of the write itself is ignored by the source. */
  method UpdateAPlaylistFile(songs: seq<string>, playlistContent: seq<string>, relativePath: string -> Result<string, string>)
    returns (written: Result<string, string>)
    ensures PlaylistLines(songs, relativePath).Err? ==> written == Err(PlaylistLines(songs, relativePath).error)
    ensures PlaylistLines(songs, relativePath).Ok? ==> written == Ok(Concat(playlistContent + PlaylistLines(songs, relativePath).value))
  {
    var content := playlistContent;
    var i := 0;
    while i < |songs|
      invariant 0 <= i <= |songs|
      invariant PlaylistLines(songs[..i], relativePath).Ok?
      invariant content == playlistContent + PlaylistLines(songs[..i], relativePath).value
    {
      assert songs[..i + 1][..i] == songs[..i];
      PrefixKeepsError(songs, i + 1, relativePath);
      var song := songs[i];
      if song != "" {
        var rel := relativePath(song);
        if rel.Err? {
          return Err(rel.error);
        }
        content := content + [rel.value + "\n"];
      }
      i := i + 1;
    }
    assert songs[..i] == songs;
    return Ok(Concat(content));
  }

  /** A failure in a prefix of the songs is the failure of them all. */
  lemma {:induction false} PrefixKeepsError(songs: seq<string>, i: nat, relativePath: string -> Result<string, string>)
    requires i <= |songs|
    ensures PlaylistLines(songs[..i], relativePath).Err? ==>
              PlaylistLines(songs, relativePath) == PlaylistLines(songs[..i], relativePath)
    decreases |songs| - i
  {
    if i < |songs| {
      PrefixKeepsError(songs, i + 1, relativePath);
      assert songs[..i + 1][..i] == songs[..i];
    } else {
      assert songs[..i] == songs;
    }
  }

  /* ---------------- the library ---------------- */

  /** The tags that tags.json holds. */
  class TagLibrary {
    var stored: map<string, Tag>

    constructor(tags: map<string, Tag>)
      ensures stored == tags
    {
      stored := tags;
    }

    /** ChangeSongsInTag (commands/tags/tags.go:292-345). `now` is the clock,
        `playlist` what stat and read report on the tag's playlist file, and
        `writeError` the outcome of writing tags.json. Returns the playlist text
        written, if any. */
    method ChangeSongsInTag(tagName: string, songs: seq<string>, shouldAppend: bool, now: int,
                            playlist: PlaylistFile, relativePath: string -> Result<string, string>,
                            writeError: Option<string>)
      returns (playlistText: Option<string>, err: Option<string>)
      modifies this
      ensures var tag := ChangedTag(old(stored), tagName, songs, shouldAppend, now);
              var start := PlaylistStart(tagName, shouldAppend, playlist);
              var lines := PlaylistLines(tag.songs, relativePath);
              && playlistText == (if start.Ok? && lines.Ok? then Some(Concat([start.value] + lines.value)) else None)
              && err == (if start.Err? then Some(start.error)
                         else if lines.Err? then Some(lines.error)
                         else writeError)
              && stored == (if err.None? then old(stored)[tagName := tag] else old(stored))
    {
      var tag: Tag;
      if tagName !in stored {
        var kept := FilterEmptyStrings(songs);
        tag := Tag(kept, now, now);
      } else if shouldAppend {
        tag := stored[tagName];
        var tagSongs := tag.songs;
        var i := 0;
        while i < |songs|
          invariant 0 <= i <= |songs|
          invariant tagSongs == AppendNew(tag.songs, songs[..i])
          invariant unchanged(this)
        {
          assert songs[..i + 1][..i] == songs[..i];
          var has := Includes(tagSongs, songs[i]);
          if songs[i] != "" && !has {
            tagSongs := tagSongs + [songs[i]];
          }
          i := i + 1;
        }
        assert songs[..i] == songs;
        tag := tag.(songs := tagSongs);
      } else {
        var kept := FilterEmptyStrings(songs);
        tag := stored[tagName].(songs := kept);
      }

      ghost var expected := ChangedTag(stored, tagName, songs, shouldAppend, now);
      assert tag.songs == expected.songs && tag.creationTime == expected.creationTime;
      var start := PlaylistStart(tagName, shouldAppend, playlist);
      if start.Err? {
        return None, Some(start.error);
      }
      var written := UpdateAPlaylistFile(tag.songs, [start.value], relativePath);
      if written.Err? {
        return None, Some(written.error);
      }
      playlistText := Some(written.value);
      tag := tag.(modifiedTime := now);
      if writeError.Some? {
        return playlistText, writeError;
      }
      stored := stored[tagName := tag];
      err := None;
    }

    /** Deleting a listed tag (commands/tags/tags.go:266-279): an unknown name is
        reported and nothing changes; otherwise the map without it is written. */
    method DeleteTag(tagName: string, writeError: Option<string>) returns (err: Option<string>)
      modifies this
      ensures tagName !in old(stored) ==> err == Some("Error: tag \"" + tagName + "\" does not exist")
      ensures tagName in old(stored) ==> err == writeError
      ensures stored == if err.None? then old(stored) - {tagName} else old(stored)
    {
      if tagName !in stored {
        return Some("Error: tag \"" + tagName + "\" does not exist");
      }
      if writeError.Some? {
        return writeError;
      }
      stored := stored - {tagName};
      return None;
    }
  }

  /** A change or a deletion touches the named tag's entry and no other. */
  lemma OnlyNamedTagChanges(tags: map<string, Tag>, tagName: string, tag: Tag, other: string)
    requires other != tagName
    ensures other in tags[tagName := tag] <==> other in tags
    ensures other in tags - {tagName} <==> other in tags
    ensures other in tags ==> tags[tagName := tag][other] == tags[other] && (tags - {tagName})[other] == tags[other]
    ensures tagName in tags[tagName := tag] && tagName !in tags - {tagName}
  {
  }
}
