/**
 * utils/get-current-song.go: the metadata that `playerctl -p vlc metadata` prints,
 * one "<player> <key> <value...>" line per field, turned into artist, title and
 * length or a typed error. The command is not run: its outcome is an input, None
 * when it failed. The same line loop is repeated verbatim in commands/lastfm/watch.go
 * and commands/lastfm/lastfm.go, whose models use ParseMetadata.
 */
module CurrentSong {
  import opened Wrappers
  import opened Text

  /** The key and value one output line contributes: none for a blank line or a line
      of fewer than three fields; otherwise the second field, and the remaining fields
      joined by single spaces (the first field, the player name, is dropped). */
  function LineEntry(line: string): Option<(string, string)> {
    var sections := Fields(line);
    if TrimSpace(line) == "" || |sections| < 3 then None
    else Some((sections[1], Join(sections[2..], " ")))
  }

  /** The metadata map after reading `lines` in order: a later line with the same key
      overwrites an earlier one. */
  function MetadataOf(lines: seq<string>): map<string, string> {
    if lines == [] then map[]
    else
      var m := MetadataOf(lines[..|lines| - 1]);
      match LineEntry(lines[|lines| - 1])
      case None => m
      case Some(e) => m[e.0 := e.1]
  }

  /** A key is present exactly when some line gives it, and then its value is the one
      given by the last such line. */
  lemma {:induction false} MetadataLastLineWins(lines: seq<string>, i: nat, key: string, value: string)
    requires i < |lines| && LineEntry(lines[i]) == Some((key, value))
    requires forall j :: i < j < |lines| ==> LineEntry(lines[j]).None? || LineEntry(lines[j]).value.0 != key
    ensures key in MetadataOf(lines) && MetadataOf(lines)[key] == value
  {
    var init := lines[..|lines| - 1];
    if i < |lines| - 1 {
      assert init[i] == lines[i];
      MetadataLastLineWins(init, i, key, value);
    }
  }

  lemma {:induction false} MetadataAbsentKey(lines: seq<string>, key: string)
    requires forall j :: 0 <= j < |lines| ==> LineEntry(lines[j]).None? || LineEntry(lines[j]).value.0 != key
    ensures key !in MetadataOf(lines)
  {
    if lines != [] {
      var init := lines[..|lines| - 1];
      assert forall j :: 0 <= j < |init| ==> init[j] == lines[j];
      MetadataAbsentKey(init, key);
    }
  }

  /** Every key of the map comes from some line. */
  lemma {:induction false} MetadataKeysFromLines(lines: seq<string>, key: string)
    requires key in MetadataOf(lines)
    ensures exists j :: 0 <= j < |lines| && LineEntry(lines[j]).Some? && LineEntry(lines[j]).value == (key, MetadataOf(lines)[key])
  {
    var init := lines[..|lines| - 1];
    var last := lines[|lines| - 1];
    if LineEntry(last).Some? && LineEntry(last).value.0 == key {
      assert LineEntry(lines[|lines| - 1]).value == (key, MetadataOf(lines)[key]);
    } else {
      MetadataKeysFromLines(init, key);
      var j :| 0 <= j < |init| && LineEntry(init[j]).Some? && LineEntry(init[j]).value == (key, MetadataOf(init)[key]);
      assert lines[j] == init[j];
    }
  }

  /** A blank line, or one with fewer than three fields, adds nothing. */
  lemma IgnoredLine(lines: seq<string>, line: string)
    requires TrimSpace(line) == "" || |Fields(line)| < 3
    ensures MetadataOf(lines + [line]) == MetadataOf(lines)
  {
    assert (lines + [line])[..|lines|] == lines;
  }

  /** The map lookup of Go: the value, or "" for an absent key. */
  function Lookup(m: map<string, string>, key: string): string {
    if key in m then m[key] else ""
  }

  /** The metadata loop (utils/get-current-song.go:33-49), over the lines that
      strings.Split(output, "\n") gives. */
  method ParseMetadata(output: string) returns (metadata: map<string, string>)
    ensures metadata == MetadataOf(Split(output, '\n'))
  {
    var lines := Split(output, '\n');
    metadata := map[];
    var i := 0;
    while i < |lines|
      invariant 0 <= i <= |lines|
      invariant metadata == MetadataOf(lines[..i])
    {
      var line := lines[i];
      assert lines[..i + 1][..i] == lines[..i];
      if TrimSpace(line) == "" {
        i := i + 1;
        continue;
      }
      var sections := Fields(line);
      if |sections| < 3 {
        i := i + 1;
        continue;
      }
      var key, value := sections[1], Join(sections[2..], " ");
      metadata := metadata[key := value];
      i := i + 1;
    }
    assert lines[..i] == lines;
  }

  datatype SongMetadata = SongMetadata(artist: string, track: string, length: string)

  datatype SongMetadataError = CantGetMetadata | MissingFields

  /** SongMetadataError.Error */
  function Message(e: SongMetadataError): string {
    match e
    case CantGetMetadata => "playerctl - could not get metadata"
    case MissingFields => "playerctl - could get metadata but not the necessary fields"
  }

  /** GetCurrentPlayingSong (utils/get-current-song.go:25-60); `metadataOutput` is
      the command's output, None when it failed. */
  method GetCurrentPlayingSong(metadataOutput: Option<string>) returns (r: Result<SongMetadata, SongMetadataError>)
    ensures metadataOutput.None? ==> r == Err(CantGetMetadata)
    ensures metadataOutput.Some? ==>
              var m := MetadataOf(Split(metadataOutput.value, '\n'));
              if Lookup(m, "xesam:artist") == "" || Lookup(m, "xesam:title") == "" || Lookup(m, "vlc:length") == ""
              then r == Err(MissingFields)
              else r == Ok(SongMetadata(m["xesam:artist"], m["xesam:title"], m["vlc:length"]))
    ensures r.Ok? ==> r.value.artist != "" && r.value.track != "" && r.value.length != ""
  {
    if metadataOutput.None? {
      return Err(CantGetMetadata);
    }
    var metadata := ParseMetadata(metadataOutput.value);
    if Lookup(metadata, "xesam:artist") == "" || Lookup(metadata, "xesam:title") == "" || Lookup(metadata, "vlc:length") == "" {
      return Err(MissingFields);
    }
    return Ok(SongMetadata(metadata["xesam:artist"], metadata["xesam:title"], metadata["vlc:length"]));
  }

  /** A word followed by a space or the end of the line is the next field. */
  lemma FieldsWord(w: string, rest: string)
    requires Word(w)
    requires rest == [] || IsUnicodeSpace(rest[0])
    ensures Fields(w + rest) == [w] + Fields(rest)
  {
    var s := w + rest;
    WordLengthOf(w, rest);
    assert s[..|w|] == w && s[|w|..] == rest;
  }

  lemma {:induction false} WordLengthOf(w: string, rest: string)
    requires NoSpace(w)
    requires rest == [] || IsUnicodeSpace(rest[0])
    ensures WordLength(w + rest) == |w|
  {
    if w != [] {
      assert (w + rest)[1..] == w[1..] + rest;
      WordLengthOf(w[1..], rest);
    } else {
      assert w + rest == rest;
    }
  }

  /** A run of spaces before the next field is skipped. */
  lemma {:induction false} FieldsSkipSpaces(sep: string, rest: string)
    requires forall i :: 0 <= i < |sep| ==> IsUnicodeSpace(sep[i])
    ensures Fields(sep + rest) == Fields(rest)
  {
    if sep != [] {
      assert (sep + rest)[1..] == sep[1..] + rest;
      FieldsSkipSpaces(sep[1..], rest);
    } else {
      assert sep + rest == rest;
    }
  }

  /** A non-empty run of characters that are not spaces. */
  predicate Word(w: string) {
    w != [] && NoSpace(w)
  }

  predicate NoSpace(w: string) {
    w == [] || (!IsUnicodeSpace(w[0]) && NoSpace(w[1..]))
  }

  lemma FieldsOfTwoWords(v1: string, sep: string, v2: string)
    requires Word(v1) && Word(v2)
    requires sep != [] && forall i :: 0 <= i < |sep| ==> IsUnicodeSpace(sep[i])
    ensures Fields(v1 + (sep + v2)) == [v1, v2]
  {
    var r := sep + v2;
    FieldsWord(v2, "");
    assert v2 + "" == v2;
    FieldsSkipSpaces(sep, v2);
    assert r[0] == sep[0];
    FieldsWord(v1, r);
  }

  lemma FieldsAfterWord(w: string, rest: string)
    requires Word(w)
    ensures Fields(w + (" " + rest)) == [w] + Fields(rest)
  {
    FieldsSkipSpaces(" ", rest);
    FieldsWord(w, " " + rest);
  }

  lemma FieldsOfWords(player: string, key: string, t: string, v1: string, v2: string)
    requires Word(player) && Word(key) && Fields(t) == [v1, v2]
    ensures Fields(player + (" " + (key + (" " + t)))) == [player, key, v1, v2]
  {
    var u := key + (" " + t);
    FieldsAfterWord(key, t);
    assert Fields(u) == [key, v1, v2];
    FieldsAfterWord(player, u);
  }

  /** A line "<player> <key> <word> <word>" whose last two words are separated by any
      run of spaces gives `key`, with the two words joined by one space. */
  lemma LineEntryOfWords(player: string, key: string, v1: string, sep: string, v2: string)
    requires Word(player) && Word(key) && Word(v1) && Word(v2)
    requires sep != [] && forall i :: 0 <= i < |sep| ==> IsUnicodeSpace(sep[i])
    ensures LineEntry(player + " " + key + " " + v1 + sep + v2) == Some((key, v1 + " " + v2))
  {
    var line := player + " " + key + " " + v1 + sep + v2;
    var t := v1 + (sep + v2);
    assert line == player + (" " + (key + (" " + t)));
    FieldsOfTwoWords(v1, sep, v2);
    FieldsOfWords(player, key, t, v1, v2);
    assert line[0] == player[0] && line[|line| - 1] == v2[|v2| - 1];
    NoSpaceLast(v2);
    NotBlank(line);
    assert [player, key, v1, v2][2..] == [v1, v2];
    assert [v1, v2][1..] == [v2];
    assert Join([v1, v2], " ") == v1 + " " + v2;
  }

  lemma {:induction false} NoSpaceLast(w: string)
    requires Word(w)
    ensures !IsUnicodeSpace(w[|w| - 1])
  {
    if |w| > 1 {
      NoSpaceLast(w[1..]);
    }
  }

  lemma NotBlank(line: string)
    requires line != [] && !IsUnicodeSpace(line[0]) && !IsUnicodeSpace(line[|line| - 1])
    ensures TrimSpace(line) == line
  {
  }
}
