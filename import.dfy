/**
 * The re-scrobble importer of commands/lastfm/import.go: it reads songs back from
 * the log of `watch --debug` (or from a JSON export), then sends them to Last.fm in
 * batches of at most 50, each after a y/n confirmation. The log's regular expression
 * and time.Parse are oracles, as are the answers typed at the prompt and the HTTP
 * responses; JSON decoding is not modelled and its outcome is an input.
 */
module Import {
  import opened Wrappers
  import opened Text
  import opened LastfmSignature

  /* ---------------- the format flags ---------------- */

  datatype InputFormat = JsonFile | TextFile

  /** The flag check of importRunner (commands/lastfm/import.go:144-148): exactly one
      of --json and --text. */
  function SelectFormat(json: bool, text: bool): (r: Result<InputFormat, string>)
    ensures r.Ok? <==> json != text
    ensures r.Ok? ==> (r.value == JsonFile <==> json)
    ensures json && text ==> r == Err("only one of --json/-j or --text/-t can be used")
    ensures !json && !text ==> r == Err("one of --json/-t or --text/-t must be used")
  {
    if json && text then Err("only one of --json/-j or --text/-t can be used")
    else if !json && !text then Err("one of --json/-t or --text/-t must be used")
    else if json then Ok(JsonFile)
    else Ok(TextFile)
  }

  /* ---------------- the log parser ---------------- */

  /** A song that may be scrobbled again; the time is Unix seconds in decimal. */
  datatype Entry = Entry(artist: string, track: string, time: string)

  /** The header that the watcher logs for a new song. */
  const Header: string := "new song detected"

  /** What the verdict line after it contains when the song was scrobbled. */
  const Verdict: string := "\U{2500} scrobbling"

  /** The only failure of the parser: a header whose date and time do not parse. */
  datatype ImportError = TimeParseFailed(line: string)

  /** The oracles of the parser: `capture` is FindStringSubmatch of
      `info : (.+) (.+) new song detected - (.+) - (.+)`, giving [] where Go gives
      nil; `parseTime` is time.Parse with layout "2006/01/02 15:04:05", giving Unix
      seconds. */
  datatype Oracles = Oracles(capture: string -> seq<string>, parseTime: string -> Option<int>)

  function Prepend(es: seq<Entry>, r: Result<seq<Entry>, ImportError>): Result<seq<Entry>, ImportError> {
    match r
    case Err(e) => Err(e)
    case Ok(xs) => Ok(es + xs)
  }

  lemma PrependPrepend(a: seq<Entry>, b: seq<Entry>, r: Result<seq<Entry>, ImportError>)
    ensures Prepend(a, Prepend(b, r)) == Prepend(a + b, r)
  {
    if r.Ok? {
      assert a + (b + r.value) == (a + b) + r.value;
    }
  }

  /** The songs a log yields (commands/lastfm/import.go:100-141), read from the first
      line on: a header immediately followed by a verdict line gives one entry; the
      line after a header is consumed whatever it is; a header the expression does not
      match is skipped; a date that does not parse fails the whole import. */
  function TextEntries(lines: seq<string>, o: Oracles): Result<seq<Entry>, ImportError>
    decreases |lines|
  {
    if lines == [] then Ok([])
    else if !Contains(lines[0], Header) then TextEntries(lines[1..], o)
    else if |lines| == 1 then Ok([])
    else if !Contains(lines[1], Verdict) then TextEntries(lines[2..], o)
    else
      var matches := o.capture(lines[0]);
      if |matches| != 5 then TextEntries(lines[2..], o)
      else match o.parseTime(matches[1] + " " + matches[2])
        case None => Err(TimeParseFailed(lines[0]))
        case Some(t) => Prepend([Entry(matches[3], matches[4], IntToString(t))], TextEntries(lines[2..], o))
  }

  /** The scanner loop of importTextFile (commands/lastfm/import.go:100-141) over the
      lines of the file. */
  method ImportTextFile(content: string, o: Oracles) returns (r: Result<seq<Entry>, ImportError>)
    ensures r == TextEntries(Lines(content), o)
  {
    var lines := Lines(content);
    var songsToScrobble: seq<Entry> := [];
    var i := 0;
    assert lines[i..] == lines;
    if TextEntries(lines, o).Ok? {
      assert [] + TextEntries(lines, o).value == TextEntries(lines, o).value;
    }
    while i < |lines|
      invariant 0 <= i <= |lines|
      invariant TextEntries(lines, o) == Prepend(songsToScrobble, TextEntries(lines[i..], o))
    {
      var rest := lines[i..];
      assert rest[0] == lines[i] && rest[1..] == lines[i + 1..];
      var line := lines[i];
      i := i + 1;
      if Contains(line, Header) {
        if i < |lines| {
          assert rest[1] == lines[i] && rest[2..] == lines[i + 1..];
          var nextLine := lines[i];
          i := i + 1;
          if Contains(nextLine, Verdict) {
            var matches := o.capture(line);
            if |matches| == 5 {
              var parsedTime := o.parseTime(matches[1] + " " + matches[2]);
              if parsedTime.None? {
                return Err(TimeParseFailed(line));
              }
              var entry := Entry(matches[3], matches[4], IntToString(parsedTime.value));
              PrependPrepend(songsToScrobble, [entry], TextEntries(lines[i..], o));
              songsToScrobble := songsToScrobble + [entry];
            }
          }
        } else {
          assert lines[i..] == [];
        }
      }
    }
    assert lines[i..] == [];
    assert songsToScrobble + [] == songsToScrobble;
    return Ok(songsToScrobble);
  }

  /** A line that is not a header adds nothing. */
  lemma OtherLineSkipped(line: string, rest: seq<string>, o: Oracles)
    requires !Contains(line, Header)
    ensures TextEntries([line] + rest, o) == TextEntries(rest, o)
  {
    assert ([line] + rest)[1..] == rest;
  }

  /** A header whose next line is not a scrobbling verdict (a "not scrobbling" line,
      say) adds nothing, and that next line is not examined as a header. */
  lemma NoVerdictSkipped(header: string, next: string, rest: seq<string>, o: Oracles)
    requires Contains(header, Header) && !Contains(next, Verdict)
    ensures TextEntries([header, next] + rest, o) == TextEntries(rest, o)
  {
    assert ([header, next] + rest)[2..] == rest;
  }

  /** Two headers in a row: the second is consumed as the first one's verdict line,
      so it yields nothing even when a verdict line follows it. */
  lemma SecondHeaderConsumed(h1: string, h2: string, verdict: string, rest: seq<string>, o: Oracles)
    requires Contains(h1, Header) && Contains(h2, Header) && !Contains(h2, Verdict)
    ensures TextEntries([h1, h2, verdict] + rest, o) == TextEntries([verdict] + rest, o)
  {
    assert ([h1, h2, verdict] + rest)[2..] == [verdict] + rest;
  }

  /** A header followed by a verdict whose text the expression does not match is
      skipped silently. */
  lemma UnmatchedHeaderSkipped(header: string, next: string, rest: seq<string>, o: Oracles)
    requires Contains(header, Header) && Contains(next, Verdict) && |o.capture(header)| != 5
    ensures TextEntries([header, next] + rest, o) == TextEntries(rest, o)
  {
    assert ([header, next] + rest)[2..] == rest;
  }

  /** A scrobbled header whose date does not parse fails the import, whatever follows. */
  lemma BadTimeAborts(header: string, next: string, rest: seq<string>, o: Oracles)
    requires Contains(header, Header) && Contains(next, Verdict)
    requires |o.capture(header)| == 5
    requires o.parseTime(o.capture(header)[1] + " " + o.capture(header)[2]).None?
    ensures TextEntries([header, next] + rest, o) == Err(TimeParseFailed(header))
  {
  }

  /** A scrobbled header gives its entry ahead of the entries of the lines after it:
      the entries keep the order of the file. */
  lemma ScrobbledHeaderFirst(header: string, next: string, rest: seq<string>, o: Oracles, t: int)
    requires Contains(header, Header) && Contains(next, Verdict)
    requires |o.capture(header)| == 5
    requires o.parseTime(o.capture(header)[1] + " " + o.capture(header)[2]) == Some(t)
    ensures var m := o.capture(header);
            TextEntries([header, next] + rest, o)
            == Prepend([Entry(m[3], m[4], IntToString(t))], TextEntries(rest, o))
  {
    assert ([header, next] + rest)[2..] == rest;
  }

  /** Every entry comes from a header, in the line right before a verdict line, that
      the expression matched: artist and title are its third and fourth groups. */
  lemma {:induction false} EntryProvenance(lines: seq<string>, o: Oracles, e: Entry)
    requires TextEntries(lines, o).Ok? && e in TextEntries(lines, o).value
    ensures exists j :: 0 <= j < |lines| - 1
              && Contains(lines[j], Header) && Contains(lines[j + 1], Verdict)
              && |o.capture(lines[j])| == 5
              && e.artist == o.capture(lines[j])[3] && e.track == o.capture(lines[j])[4]
    decreases |lines|
  {
    if !Contains(lines[0], Header) {
      EntryProvenance(lines[1..], o, e);
      var j :| 0 <= j < |lines[1..]| - 1
              && Contains(lines[1..][j], Header) && Contains(lines[1..][j + 1], Verdict)
              && |o.capture(lines[1..][j])| == 5
              && e.artist == o.capture(lines[1..][j])[3] && e.track == o.capture(lines[1..][j])[4];
      assert lines[j + 1] == lines[1..][j] && lines[j + 2] == lines[1..][j + 1];
    } else {
      var m := o.capture(lines[0]);
      if Contains(lines[1], Verdict) && |m| == 5 && e == Entry(m[3], m[4], e.time) {
      } else {
        assert e in TextEntries(lines[2..], o).value;
        EntryProvenance(lines[2..], o, e);
        var j :| 0 <= j < |lines[2..]| - 1
                && Contains(lines[2..][j], Header) && Contains(lines[2..][j + 1], Verdict)
                && |o.capture(lines[2..][j])| == 5
                && e.artist == o.capture(lines[2..][j])[3] && e.track == o.capture(lines[2..][j])[4];
        assert lines[j + 2] == lines[2..][j] && lines[j + 3] == lines[2..][j + 1];
      }
    }
  }

  /** Each entry takes a header and its verdict line: at most half the lines. */
  lemma {:induction false} EntriesBound(lines: seq<string>, o: Oracles)
    ensures TextEntries(lines, o).Ok? ==> 2 * |TextEntries(lines, o).value| <= |lines|
    decreases |lines|
  {
    if lines != [] {
      if !Contains(lines[0], Header) {
        EntriesBound(lines[1..], o);
      } else if |lines| > 1 {
        EntriesBound(lines[2..], o);
      }
    }
  }

  /* ---------------- batches ---------------- */

  /** MAX_SCROBBLES: the most songs one track.scrobble call carries. */
  const MaxScrobbles: nat := 50

  /** The end of the batch that starts at `cursor` (commands/lastfm/import.go:187-191). */
  function BatchEnd(cursor: nat, n: nat): (e: nat)
    requires cursor < n
    ensures cursor < e <= n && e - cursor <= MaxScrobbles
    ensures e < n ==> e - cursor == MaxScrobbles
  {
    if cursor + MaxScrobbles > n then n else cursor + MaxScrobbles
  }

  /** The [start, end) ranges the cursor loop visits from `cursor` on. */
  function Batches(cursor: nat, n: nat): seq<(nat, nat)>
    decreases n - cursor
  {
    if cursor >= n then [] else [(cursor, BatchEnd(cursor, n))] + Batches(BatchEnd(cursor, n), n)
  }

  /** The batches start at the cursor and end at the last song; each holds 1 to 50
      songs and starts where the one before ended, and all but the last hold 50. */
  lemma {:induction false} BatchesCover(cursor: nat, n: nat)
    requires cursor <= n
    ensures var b := Batches(cursor, n);
            && (b == [] <==> cursor == n)
            && (b != [] ==> b[0].0 == cursor && b[|b| - 1].1 == n)
            && (forall k :: 0 <= k < |b| ==> b[k].0 < b[k].1 <= b[k].0 + MaxScrobbles)
            && (forall k :: 0 <= k < |b| - 1 ==> b[k].1 == b[k + 1].0 && b[k].1 - b[k].0 == MaxScrobbles)
    decreases n - cursor
  {
    if cursor < n {
      var e := BatchEnd(cursor, n);
      BatchesCover(e, n);
      var b, rest := Batches(cursor, n), Batches(e, n);
      assert b == [(cursor, e)] + rest;
      assert forall k :: 1 <= k < |b| ==> b[k] == rest[k - 1];
    }
  }

  /** There are as many batches as 50 goes into the number of songs, rounded up. */
  lemma {:induction false} BatchesCount(cursor: nat, n: nat)
    requires cursor <= n
    ensures |Batches(cursor, n)| == (n - cursor + MaxScrobbles - 1) / MaxScrobbles
    decreases n - cursor
  {
    if cursor < n {
      var e := BatchEnd(cursor, n);
      BatchesCount(e, n);
      assert |Batches(cursor, n)| == 1 + |Batches(e, n)|;
    }
  }

  /** The name of the i-th batch parameter of a kind: "artist[3]". */
  function IndexedKey(name: string, i: nat): string {
    name + "[" + NatToString(i) + "]"
  }

  predicate BatchField(name: string) {
    name == "artist" || name == "track" || name == "timestamp"
  }

  /** Indexed keys differ from the fixed keys of the call, from api_sig and from
      format. */
  lemma IndexedKeyNotFixed(name: string, i: nat)
    requires BatchField(name)
    ensures IndexedKey(name, i) !in {"method", "api_key", "sk", "api_sig", "format"}
  {
    var k := IndexedKey(name, i);
    assert k[0] == name[0] && k[1] == name[1];
  }

  /** Distinct positions or kinds give distinct keys. */
  lemma IndexedKeyInjective(n1: string, i: nat, n2: string, j: nat)
    requires BatchField(n1) && BatchField(n2)
    requires IndexedKey(n1, i) == IndexedKey(n2, j)
    ensures n1 == n2 && i == j
  {
    var k := IndexedKey(n1, i);
    assert k[0] == n1[0] == n2[0] && k[1] == n1[1] == n2[1];
    assert n1 == n2;
    assert k[|n1| + 1..|k| - 1] == NatToString(i);
    assert IndexedKey(n2, j)[|n2| + 1..|k| - 1] == NatToString(j);
    NatToStringInjective(i, j);
  }

  /** The parameters of a batch before signing (commands/lastfm/import.go:196-206). */
  function BatchValues(songs: seq<Entry>, apiKey: string, sessionKey: string): Values {
    if songs == [] then map["method" := ["track.scrobble"], "api_key" := [apiKey], "sk" := [sessionKey]]
    else
      var i := |songs| - 1;
      BatchValues(songs[..i], apiKey, sessionKey)
        [IndexedKey("artist", i) := [songs[i].artist]]
        [IndexedKey("track", i) := [songs[i].track]]
        [IndexedKey("timestamp", i) := [songs[i].time]]
  }

  /** A key that names a song of a batch of n. */
  ghost predicate SongKey(k: string, n: nat) {
    exists i: nat, name :: i < n && BatchField(name) && k == IndexedKey(name, i)
  }

  /** What a batch carries: the three fixed keys, and for the i-th song (from 0) its
      artist, title and time under artist[i], track[i] and timestamp[i]; nothing else. */
  lemma BatchValuesContent(songs: seq<Entry>, apiKey: string, sessionKey: string)
    ensures var v := BatchValues(songs, apiKey, sessionKey);
            && Get(v, "method") == "track.scrobble" && Get(v, "api_key") == apiKey && Get(v, "sk") == sessionKey
            && (forall i: nat :: i < |songs| ==>
                  && IndexedKey("artist", i) in v && v[IndexedKey("artist", i)] == [songs[i].artist]
                  && IndexedKey("track", i) in v && v[IndexedKey("track", i)] == [songs[i].track]
                  && IndexedKey("timestamp", i) in v && v[IndexedKey("timestamp", i)] == [songs[i].time])
            && (forall k :: k in v <==> k == "method" || k == "api_key" || k == "sk" || SongKey(k, |songs|))
  {
    BatchFixedKeys(songs, apiKey, sessionKey);
    forall i: nat | i < |songs|
      ensures var v := BatchValues(songs, apiKey, sessionKey);
              && IndexedKey("artist", i) in v && v[IndexedKey("artist", i)] == [songs[i].artist]
              && IndexedKey("track", i) in v && v[IndexedKey("track", i)] == [songs[i].track]
              && IndexedKey("timestamp", i) in v && v[IndexedKey("timestamp", i)] == [songs[i].time]
    {
      BatchSongValues(songs, apiKey, sessionKey, i);
    }
    BatchKeys(songs, apiKey, sessionKey);
  }

  lemma {:induction false} BatchFixedKeys(songs: seq<Entry>, apiKey: string, sessionKey: string)
    ensures var v := BatchValues(songs, apiKey, sessionKey);
            Get(v, "method") == "track.scrobble" && Get(v, "api_key") == apiKey && Get(v, "sk") == sessionKey
  {
    if songs != [] {
      var n := |songs| - 1;
      BatchFixedKeys(songs[..n], apiKey, sessionKey);
      IndexedKeyNotFixed("artist", n);
      IndexedKeyNotFixed("track", n);
      IndexedKeyNotFixed("timestamp", n);
    }
  }

  lemma BatchSongValues(songs: seq<Entry>, apiKey: string, sessionKey: string, i: nat)
    requires i < |songs|
    ensures var v := BatchValues(songs, apiKey, sessionKey);
            && IndexedKey("artist", i) in v && v[IndexedKey("artist", i)] == [songs[i].artist]
            && IndexedKey("track", i) in v && v[IndexedKey("track", i)] == [songs[i].track]
            && IndexedKey("timestamp", i) in v && v[IndexedKey("timestamp", i)] == [songs[i].time]
  {
    BatchSongValue(songs, apiKey, sessionKey, i, "artist");
    BatchSongValue(songs, apiKey, sessionKey, i, "track");
    BatchSongValue(songs, apiKey, sessionKey, i, "timestamp");
  }

  /** The value a song gives to one kind of batch parameter. */
  function Field(e: Entry, name: string): string {
    if name == "artist" then e.artist else if name == "track" then e.track else e.time
  }

  lemma {:induction false} BatchSongValue(songs: seq<Entry>, apiKey: string, sessionKey: string, i: nat, name: string)
    requires i < |songs| && BatchField(name)
    ensures var v := BatchValues(songs, apiKey, sessionKey);
            IndexedKey(name, i) in v && v[IndexedKey(name, i)] == [Field(songs[i], name)]
    decreases |songs|
  {
    var n := |songs| - 1;
    if i < n {
      BatchSongValue(songs[..n], apiKey, sessionKey, i, name);
      assert songs[..n][i] == songs[i];
      EarlierSongKept(songs, apiKey, sessionKey, i, name);
    } else {
      LastSongAdded(songs, apiKey, sessionKey);
    }
  }

  /** The last song's keys do not disturb an earlier song's. */
  lemma EarlierSongKept(songs: seq<Entry>, apiKey: string, sessionKey: string, i: nat, name: string)
    requires i < |songs| - 1 && BatchField(name)
    requires var u := BatchValues(songs[..|songs| - 1], apiKey, sessionKey);
             IndexedKey(name, i) in u
    ensures var n := |songs| - 1;
            var u := BatchValues(songs[..n], apiKey, sessionKey);
            var v := BatchValues(songs, apiKey, sessionKey);
            IndexedKey(name, i) in v && v[IndexedKey(name, i)] == u[IndexedKey(name, i)]
  {
    var n := |songs| - 1;
    var u := BatchValues(songs[..n], apiKey, sessionKey);
    var a, t, ts := IndexedKey("artist", n), IndexedKey("track", n), IndexedKey("timestamp", n);
    var k := IndexedKey(name, i);
    NewKeysAreNew(name, i, n);
    BatchValuesStep(songs, apiKey, sessionKey);
    SongUpdateKeeps(u, a, t, ts, [songs[n].artist], [songs[n].track], [songs[n].time], k);
  }

  /** One more song adds its three keys to the batch of the songs before it. */
  lemma BatchValuesStep(songs: seq<Entry>, apiKey: string, sessionKey: string)
    requires songs != []
    ensures var n := |songs| - 1;
            BatchValues(songs, apiKey, sessionKey)
              == BatchValues(songs[..n], apiKey, sessionKey)
                   [IndexedKey("artist", n) := [songs[n].artist]]
                   [IndexedKey("track", n) := [songs[n].track]]
                   [IndexedKey("timestamp", n) := [songs[n].time]]
  {
  }

  /** The last song's three keys carry its artist, title and time. */
  lemma LastSongAdded(songs: seq<Entry>, apiKey: string, sessionKey: string)
    requires songs != []
    ensures var n := |songs| - 1;
            var v := BatchValues(songs, apiKey, sessionKey);
            forall name :: BatchField(name) ==> IndexedKey(name, n) in v && v[IndexedKey(name, n)] == [Field(songs[n], name)]
  {
    var n := |songs| - 1;
    var u := BatchValues(songs[..n], apiKey, sessionKey);
    FieldKeysDiffer(n);
    SongUpdate(u, IndexedKey("artist", n), IndexedKey("track", n), IndexedKey("timestamp", n),
               [songs[n].artist], [songs[n].track], [songs[n].time]);
  }

  /** A key other than the three added keeps its value. */
  lemma SongUpdateKeeps(u: Values, a: string, t: string, ts: string, x: seq<string>, y: seq<string>, z: seq<string>, k: string)
    requires k in u && k != a && k != t && k != ts
    ensures var v := u[a := x][t := y][ts := z];
            k in v && v[k] == u[k]
  {
  }

  /** The three keys of one song differ. */
  lemma FieldKeysDiffer(i: nat)
    ensures IndexedKey("artist", i) != IndexedKey("track", i)
    ensures IndexedKey("artist", i) != IndexedKey("timestamp", i)
    ensures IndexedKey("track", i) != IndexedKey("timestamp", i)
  {
    assert IndexedKey("artist", i)[0] == 'a' && IndexedKey("track", i)[0] == 't';
    assert IndexedKey("timestamp", i)[0] == 't';
    assert IndexedKey("track", i)[1] == 'r' && IndexedKey("timestamp", i)[1] == 'i';
  }

  /** Adding one song's three distinct keys to a map. */
  lemma SongUpdate(u: Values, a: string, t: string, ts: string, x: seq<string>, y: seq<string>, z: seq<string>)
    requires a != t && a != ts && t != ts
    ensures var v := u[a := x][t := y][ts := z];
            && v.Keys == u.Keys + {a, t, ts}
            && v[a] == x && v[t] == y && v[ts] == z
            && forall k :: k in u && k != a && k != t && k != ts ==> v[k] == u[k]
  {
  }

  lemma {:induction false} BatchKeys(songs: seq<Entry>, apiKey: string, sessionKey: string)
    ensures var v := BatchValues(songs, apiKey, sessionKey);
            forall k :: k in v <==> k == "method" || k == "api_key" || k == "sk" || SongKey(k, |songs|)
  {
    if songs != [] {
      var n := |songs| - 1;
      BatchKeys(songs[..n], apiKey, sessionKey);
      var u := BatchValues(songs[..n], apiKey, sessionKey);
      var a, t, ts := IndexedKey("artist", n), IndexedKey("track", n), IndexedKey("timestamp", n);
      FieldKeysDiffer(n);
      SongUpdate(u, a, t, ts, [songs[n].artist], [songs[n].track], [songs[n].time]);
      KeysAfterSong(u, BatchValues(songs, apiKey, sessionKey), n);
    }
  }

  /** The keys grow by the three keys of song n. */
  lemma KeysAfterSong(u: Values, v: Values, n: nat)
    requires forall k :: k in u <==> k == "method" || k == "api_key" || k == "sk" || SongKey(k, n)
    requires v.Keys == u.Keys + {IndexedKey("artist", n), IndexedKey("track", n), IndexedKey("timestamp", n)}
    ensures forall k :: k in v <==> k == "method" || k == "api_key" || k == "sk" || SongKey(k, n + 1)
  {
    SongKeysOfLast(n);
    forall k | k in u && SongKey(k, n)
      ensures SongKey(k, n + 1)
    {
      SongKeyGrows(k, n);
    }
    forall k | SongKey(k, n + 1)
      ensures k in v
    {
      SongKeySplit(k, n);
    }
  }

  lemma SongKeyGrows(k: string, n: nat)
    requires SongKey(k, n)
    ensures SongKey(k, n + 1)
  {
    var i: nat, name :| i < n && BatchField(name) && k == IndexedKey(name, i);
    assert i < n + 1;
  }

  lemma SongKeysOfLast(n: nat)
    ensures SongKey(IndexedKey("artist", n), n + 1)
    ensures SongKey(IndexedKey("track", n), n + 1)
    ensures SongKey(IndexedKey("timestamp", n), n + 1)
  {
    assert BatchField("artist") && BatchField("track") && BatchField("timestamp");
  }

  /** A key of a batch of n + 1 songs names one of the first n songs or song n. */
  lemma SongKeySplit(k: string, n: nat)
    requires SongKey(k, n + 1)
    ensures SongKey(k, n) || k == IndexedKey("artist", n) || k == IndexedKey("track", n) || k == IndexedKey("timestamp", n)
  {
    var i: nat, name :| i < n + 1 && BatchField(name) && k == IndexedKey(name, i);
    if i < n {
      assert SongKey(k, n);
    }
  }

  /** The keys of song n differ from the keys of every earlier song. */
  lemma NewKeysAreNew(name: string, i: nat, n: nat)
    requires BatchField(name) && i < n
    ensures IndexedKey(name, i) != IndexedKey("artist", n)
    ensures IndexedKey(name, i) != IndexedKey("track", n)
    ensures IndexedKey(name, i) != IndexedKey("timestamp", n)
  {
    if IndexedKey(name, i) == IndexedKey("artist", n) {
      IndexedKeyInjective(name, i, "artist", n);
    }
    if IndexedKey(name, i) == IndexedKey("track", n) {
      IndexedKeyInjective(name, i, "track", n);
    }
    if IndexedKey(name, i) == IndexedKey("timestamp", n) {
      IndexedKeyInjective(name, i, "timestamp", n);
    }
  }

  /** Filling the parameters of a batch, one song after the other
      (commands/lastfm/import.go:196-206). */
  method FillBatch(songs: seq<Entry>, apiKey: string, sessionKey: string) returns (params: Values)
    ensures params == BatchValues(songs, apiKey, sessionKey)
  {
    params := map[];
    params := params["method" := ["track.scrobble"]];
    params := params["api_key" := [apiKey]];
    params := params["sk" := [sessionKey]];
    var i := 0;
    while i < |songs|
      invariant 0 <= i <= |songs|
      invariant params == BatchValues(songs[..i], apiKey, sessionKey)
    {
      assert songs[..i + 1][..i] == songs[..i];
      var song := songs[i];
      params := params[IndexedKey("artist", i) := [song.artist]];
      params := params[IndexedKey("track", i) := [song.track]];
      params := params[IndexedKey("timestamp", i) := [song.time]];
      i := i + 1;
    }
    assert songs[..i] == songs;
  }

  /** A batch signed by `sign`, then given `format` (commands/lastfm/import.go:218-219). */
  function Signed(params: Values, sign: Values -> string): Values {
    params["api_sig" := [sign(params)]]["format" := ["json"]]
  }

  /** The signature generateSignature computes, with the digest as the oracle
      `digest`. */
  ghost function Signer(apiSecret: string, digest: string -> string): Values -> string {
    (p: Values) => digest(PreHash(p, apiSecret))
  }

  /** The signature of a sent batch covers every parameter but itself and `format`. */
  lemma BatchSignatureCovers(songs: seq<Entry>, apiKey: string, sessionKey: string, apiSecret: string, digest: string -> string)
    ensures var s := Signed(BatchValues(songs, apiKey, sessionKey), Signer(apiSecret, digest));
            && s["format"] == ["json"]
            && s["api_sig"] == [digest(PreHash(s - {"api_sig", "format"}, apiSecret))]
  {
    var v := BatchValues(songs, apiKey, sessionKey);
    BatchKeys(songs, apiKey, sessionKey);
    NotSongKey("api_sig", |songs|);
    NotSongKey("format", |songs|);
    SignedThenFormat(v, digest(PreHash(v, apiSecret)), apiSecret, digest);
  }

  lemma NotSongKey(k: string, n: nat)
    requires k == "api_sig" || k == "format"
    ensures !SongKey(k, n)
  {
    forall i: nat, name | i < n && BatchField(name)
      ensures k != IndexedKey(name, i)
    {
      IndexedKeyNotFixed(name, i);
    }
  }

  /* ---------------- sending ---------------- */

  /** What http.PostForm gives: a transport error, or a response with its code and
      status text. */
  datatype PostResult = TransportError(message: string) | Response(statusCode: int, status: string)

  predicate Failed(r: PostResult) {
    r.TransportError? || r.statusCode > 299
  }

  function FailureMessage(r: PostResult): string
    requires Failed(r)
  {
    if r.TransportError? then r.message else r.status
  }

  /** The answer typed for the k-th batch, one line per prompt as at a terminal;
      the end of input reads as "". */
  function Answer(answers: seq<string>, k: nat): string {
    if k < |answers| then answers[k] else ""
  }

  /** An answer that trims to "y", read from the left: spaces, then 'y', then
      nothing but spaces. */
  predicate IsYes(s: string)
    decreases |s|
  {
    if s == [] then false
    else if IsUnicodeSpace(s[0]) then IsYes(s[1..])
    else s[0] == 'y' && forall i :: 1 <= i < |s| ==> IsUnicodeSpace(s[i])
  }

  /** This is the check `strings.TrimSpace(text) != "y"` of the prompt, negated. */
  lemma {:induction false} IsYesTrimmed(s: string)
    ensures IsYes(s) <==> TrimSpace(s) == "y"
    decreases |s|
  {
    if s != [] {
      if IsUnicodeSpace(s[0]) {
        IsYesTrimmed(s[1..]);
      } else {
        var r := TrimRightBy(s, IsUnicodeSpace);
        assert TrimLeftBy(s, IsUnicodeSpace) == s;
        TrimRightKeeps(s, 0);
        TrimRightDropsSpaces(s, IsUnicodeSpace);
        if forall i :: 1 <= i < |s| ==> IsUnicodeSpace(s[i]) {
          assert r[|r| - 1] == s[|r| - 1];
          assert r == [s[0]];
        }
      }
    }
  }

  /** Whether the k-th batch is confirmed. */
  predicate Confirmed(answers: seq<string>, k: nat) {
    IsYes(Answer(answers, k))
  }

  /** Which batches the answers confirm. */
  ghost function ConfirmedBy(answers: seq<string>): nat -> bool {
    (j: nat) => Confirmed(answers, j)
  }

  /** The requests sent and how the loop ended. */
  datatype Outcome = Outcome(posted: seq<Values>, result: Result<(), string>)

  /** The request for the batch that starts at `cursor`. */
  function Request(todo: seq<Entry>, cursor: nat, c: Credentials, sign: Values -> string): Values
    requires cursor < |todo|
  {
    Signed(BatchValues(todo[cursor..BatchEnd(cursor, |todo|)], c.apiKey, c.sessionKey), sign)
  }

  /** The requests sent from `cursor` on, the k-th batch being next, and how the loop
      ends (commands/lastfm/import.go:186-239); `confirmed(k)` says whether the k-th
      batch was confirmed at the prompt. */
  ghost function Send(todo: seq<Entry>, cursor: nat, k: nat, c: Credentials, confirmed: nat -> bool,
                      post: Values -> PostResult, sign: Values -> string): Outcome
    decreases |todo| - cursor
  {
    if cursor >= |todo| then Outcome([], Ok(()))
    else
      var next := Send(todo, BatchEnd(cursor, |todo|), k + 1, c, confirmed, post, sign);
      if !confirmed(k) then next
      else
        var request := Request(todo, cursor, c, sign);
        if Failed(post(request)) then Outcome([request], Err(FailureMessage(post(request))))
        else Outcome([request] + next.posted, next.result)
  }

  /** Send with the requests already sent carried along: the loop's own view of it. */
  ghost function SendAfter(posted: seq<Values>, todo: seq<Entry>, cursor: nat, k: nat, c: Credentials, confirmed: nat -> bool,
                           post: Values -> PostResult, sign: Values -> string): Outcome
    decreases |todo| - cursor
  {
    if cursor >= |todo| then Outcome(posted, Ok(()))
    else if !confirmed(k) then SendAfter(posted, todo, BatchEnd(cursor, |todo|), k + 1, c, confirmed, post, sign)
    else
      var request := Request(todo, cursor, c, sign);
      if Failed(post(request)) then Outcome(posted + [request], Err(FailureMessage(post(request))))
      else SendAfter(posted + [request], todo, BatchEnd(cursor, |todo|), k + 1, c, confirmed, post, sign)
  }

  /** Carrying the requests sent is the same as sending the rest and putting them in front. */
  lemma {:induction false} SendAfterSend(posted: seq<Values>, todo: seq<Entry>, cursor: nat, k: nat, c: Credentials,
                                         confirmed: nat -> bool, post: Values -> PostResult, sign: Values -> string)
    ensures var o := Send(todo, cursor, k, c, confirmed, post, sign);
            SendAfter(posted, todo, cursor, k, c, confirmed, post, sign) == Outcome(posted + o.posted, o.result)
    decreases |todo| - cursor
  {
    if cursor >= |todo| {
      assert posted + [] == posted;
    } else {
      var end := BatchEnd(cursor, |todo|);
      var request := Request(todo, cursor, c, sign);
      if !confirmed(k) {
        SendAfterSend(posted, todo, end, k + 1, c, confirmed, post, sign);
      } else if !Failed(post(request)) {
        SendAfterSend(posted + [request], todo, end, k + 1, c, confirmed, post, sign);
        var rest := Send(todo, end, k + 1, c, confirmed, post, sign).posted;
        assert (posted + [request]) + rest == posted + ([request] + rest);
      }
    }
  }

  /** Signing a batch and adding `format` (commands/lastfm/import.go:218-219). */
  method SignBatch(params: Values, apiSecret: string, digest: string -> string, ghost sign: Values -> string)
    returns (signed: Values)
    requires sign == Signer(apiSecret, digest)
    ensures signed == Signed(params, sign)
  {
    var order := MapKeys(params);
    var sig := GenerateSignature(params, order, apiSecret, digest);
    signed := params["api_sig" := [sig]];
    signed := signed["format" := ["json"]];
  }

  /** The confirmation prompt (commands/lastfm/import.go:208-216): only "y", up to
      surrounding spaces, confirms. */
  method Ask(answers: seq<string>, k: nat) returns (yes: bool)
    ensures yes <==> Confirmed(answers, k)
  {
    var text := Answer(answers, k);
    yes := TrimSpace(text) == "y";
    IsYesTrimmed(text);
  }

  /** One batch (commands/lastfm/import.go:196-225): its values, the prompt, and,
      when confirmed, the signed request and its response. `sent` is the request
      sent, if any, and `failure` the error that ends the import. */
  method SendBatch(todo: seq<Entry>, cursor: nat, endPosition: nat, c: Credentials, answers: seq<string>, k: nat,
                   post: Values -> PostResult, digest: string -> string, ghost sign: Values -> string)
    returns (sent: Option<Values>, failure: Option<string>)
    requires cursor < |todo| && endPosition == BatchEnd(cursor, |todo|)
    requires sign == Signer(c.apiSecret, digest)
    ensures var request := Request(todo, cursor, c, sign);
            && sent == (if Confirmed(answers, k) then Some(request) else None)
            && failure == (if Confirmed(answers, k) && Failed(post(request)) then Some(FailureMessage(post(request))) else None)
  {
    var params := FillBatch(todo[cursor..endPosition], c.apiKey, c.sessionKey);
    var yes := Ask(answers, k);
    if !yes {
      return None, None;
    }
    params := SignBatch(params, c.apiSecret, digest, sign);
    var resp := post(params);
    if Failed(resp) {
      return Some(params), Some(FailureMessage(resp));
    }
    return Some(params), None;
  }

  /** The cursor loop of importRunner (commands/lastfm/import.go:179-241). */
  method SendBatches(todo: seq<Entry>, c: Credentials, answers: seq<string>,
                     post: Values -> PostResult, digest: string -> string, ghost sign: Values -> string)
    returns (posted: seq<Values>, result: Result<(), string>)
    requires sign == Signer(c.apiSecret, digest)
    ensures Outcome(posted, result) == Send(todo, 0, 0, c, ConfirmedBy(answers), post, sign)
  {
    ghost var confirmed := ConfirmedBy(answers);
    ghost var whole := SendAfter([], todo, 0, 0, c, confirmed, post, sign);
    SendAfterSend([], todo, 0, 0, c, confirmed, post, sign);
    assert [] + Send(todo, 0, 0, c, confirmed, post, sign).posted == Send(todo, 0, 0, c, confirmed, post, sign).posted;
    posted := [];
    var cursor := 0;
    var k := 0;
    while cursor < |todo|
      invariant cursor <= |todo|
      invariant SendAfter(posted, todo, cursor, k, c, confirmed, post, sign) == whole
      decreases |todo| - cursor
    {
      var endPosition := cursor + MaxScrobbles;
      if endPosition > |todo| {
        endPosition := |todo|;
      }
      var amountOfScrobbles := endPosition - cursor;
      var sent, failure := SendBatch(todo, cursor, endPosition, c, answers, k, post, digest, sign);
      if failure.Some? {
        return posted + [sent.value], Err(failure.value);
      }
      if sent.Some? {
        posted := posted + [sent.value];
      }
      cursor := cursor + amountOfScrobbles;
      k := k + 1;
    }
    result := Ok(());
  }

  /** Declining every batch sends nothing, and the import ends without error: the
      cursor still moves over every batch. */
  lemma {:induction false} AllDeclined(todo: seq<Entry>, cursor: nat, k: nat, c: Credentials, confirmed: nat -> bool,
                                       post: Values -> PostResult, sign: Values -> string)
    requires forall j :: k <= j ==> !confirmed(j)
    ensures Send(todo, cursor, k, c, confirmed, post, sign) == Outcome([], Ok(()))
    decreases |todo| - cursor
  {
    if cursor < |todo| {
      AllDeclined(todo, BatchEnd(cursor, |todo|), k + 1, c, confirmed, post, sign);
    }
  }

  /** Every request sent before the last one succeeded. */
  ghost predicate EarlierSucceeded(posted: seq<Values>, post: Values -> PostResult) {
    forall i :: 0 <= i < |posted| - 1 ==> !Failed(post(posted[i]))
  }

  /** When the import fails, the request that failed is the last one sent, and every
      earlier one succeeded; when it does not, every request succeeded. */
  lemma {:induction false} FailureStops(todo: seq<Entry>, cursor: nat, k: nat, c: Credentials, confirmed: nat -> bool,
                                        post: Values -> PostResult, sign: Values -> string)
    ensures var o := Send(todo, cursor, k, c, confirmed, post, sign);
            && (o.result.Err? ==> o.posted != [] && Failed(post(o.posted[|o.posted| - 1])))
            && EarlierSucceeded(o.posted, post)
            && (o.result.Ok? ==> forall i :: 0 <= i < |o.posted| ==> !Failed(post(o.posted[i])))
    decreases |todo| - cursor
  {
    if cursor < |todo| {
      var end := BatchEnd(cursor, |todo|);
      FailureStops(todo, end, k + 1, c, confirmed, post, sign);
      if confirmed(k) {
        var request := Request(todo, cursor, c, sign);
        if !Failed(post(request)) {
          var rest := Send(todo, end, k + 1, c, confirmed, post, sign).posted;
          ConsSucceeded(request, rest, post);
        }
      }
    }
  }

  lemma ConsSucceeded(request: Values, rest: seq<Values>, post: Values -> PostResult)
    requires !Failed(post(request)) && EarlierSucceeded(rest, post)
    ensures EarlierSucceeded([request] + rest, post)
    ensures (forall i :: 0 <= i < |rest| ==> !Failed(post(rest[i]))) ==>
            forall i :: 0 <= i < |rest| + 1 ==> !Failed(post(([request] + rest)[i]))
  {
    assert forall i :: 1 <= i < |rest| + 1 ==> ([request] + rest)[i] == rest[i - 1];
  }

  /** With every batch confirmed and accepted, the i-th request carries exactly the
      i-th batch of songs. */
  lemma {:induction false} AllSent(todo: seq<Entry>, cursor: nat, k: nat, c: Credentials, confirmed: nat -> bool,
                                   post: Values -> PostResult, sign: Values -> string)
    requires cursor <= |todo|
    requires forall j :: k <= j ==> confirmed(j)
    requires forall p :: !Failed(post(p))
    ensures var o := Send(todo, cursor, k, c, confirmed, post, sign);
            var b := Batches(cursor, |todo|);
            && o.result == Ok(())
            && |o.posted| == |b|
            && forall i :: 0 <= i < |b| ==> b[i].0 < |todo| && o.posted[i] == Request(todo, b[i].0, c, sign)
    decreases |todo| - cursor
  {
    if cursor < |todo| {
      var end := BatchEnd(cursor, |todo|);
      AllSent(todo, end, k + 1, c, confirmed, post, sign);
      var b, bs := Batches(cursor, |todo|), Batches(end, |todo|);
      var rest := Send(todo, end, k + 1, c, confirmed, post, sign).posted;
      var request := Request(todo, cursor, c, sign);
      assert b == [(cursor, end)] + bs;
      assert Send(todo, cursor, k, c, confirmed, post, sign).posted == [request] + rest;
      assert forall i :: 1 <= i < |b| ==> b[i] == bs[i - 1] && ([request] + rest)[i] == rest[i - 1];
    }
  }

  /** importRunner after the credentials and the file have been read
      (commands/lastfm/import.go:143-242): the flags choose the parser, a parse error
      ends the import, and the songs are sent in batches. `jsonEntries` is the outcome
      of importJsonFile. */
  method ImportRunner(json: bool, text: bool, content: string, jsonEntries: Result<seq<Entry>, string>,
                      o: Oracles, c: Credentials, answers: seq<string>,
                      post: Values -> PostResult, digest: string -> string)
    returns (posted: seq<Values>, result: Result<(), string>)
    ensures SelectFormat(json, text).Err? ==> posted == [] && result == Err(SelectFormat(json, text).error)
    ensures SelectFormat(json, text) == Ok(JsonFile) ==>
              if jsonEntries.Err? then posted == [] && result == Err(jsonEntries.error)
              else Outcome(posted, result) == Send(jsonEntries.value, 0, 0, c, ConfirmedBy(answers), post, Signer(c.apiSecret, digest))
    ensures SelectFormat(json, text) == Ok(TextFile) ==>
              var parsed := TextEntries(Lines(content), o);
              if parsed.Err? then posted == [] && result == Err("error parsing time from line " + parsed.error.line)
              else Outcome(posted, result) == Send(parsed.value, 0, 0, c, ConfirmedBy(answers), post, Signer(c.apiSecret, digest))
  {
    var format := SelectFormat(json, text);
    if format.Err? {
      return [], Err(format.error);
    }
    var todo: seq<Entry>;
    if format.value == JsonFile {
      if jsonEntries.Err? {
        return [], Err(jsonEntries.error);
      }
      todo := jsonEntries.value;
    } else {
      var parsed := ImportTextFile(content, o);
      if parsed.Err? {
        return [], Err("error parsing time from line " + parsed.error.line);
      }
      todo := parsed.value;
    }
    posted, result := SendBatches(todo, c, answers, post, digest, Signer(c.apiSecret, digest));
  }
}
