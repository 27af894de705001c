/**
 * The scrobble watcher of commands/lastfm/watch.go. Every `delay` seconds it samples
 * the player (position, then metadata) and updates a CurrentTrackInfo in place; when a
 * listening session ends it decides whether the session is worth a scrobble. The
 * playerctl outputs and the clock of each sample are inputs, and strconv.ParseFloat is
 * the oracle `parseFloat`. The network call behind a positive decision is left out:
 * the model returns the decision.
 */
module Watch {
  import opened Wrappers
  import opened Text
  import opened CurrentSong
  import opened LastfmSignature

  const MinTrackLen: real := 30.0
  const MinListenTime: real := 240.0
  const DefaultIntervalSeconds: int := 10
  const RealTimeErrorMargin: real := 10.0
  const NoPlayer: string := "No player could handle this command"

  /* ---------------- the eligibility decision of attemptScrobble ---------------- */

  /** The fields of CurrentTrackInfo. */
  datatype TrackState = TrackState(track: string, artist: string, lastPosition: real, startTime: int, length: real)

  /** The listening time a session has to reach: half the length when the padded
      listen time exceeds it, otherwise the 240 s minimum when that is exceeded, and
      -1 when neither is (commands/lastfm/watch.go:340-347). */
  function Threshold(padded: real, length: real): (t: real)
    ensures t == length / 2.0 || t == MinListenTime || t == -1.0
    ensures padded > length / 2.0 ==> t == length / 2.0
    ensures padded > length / 2.0 || padded > MinListenTime ==> padded > t
    ensures !(padded > length / 2.0) && !(padded > MinListenTime) ==> t == -1.0
  {
    if padded > length / 2.0 then length / 2.0
    else if padded > MinListenTime then MinListenTime
    else -1.0
  }

  datatype Reason = OverHalfWay | OverMinimumListenTime

  function ReasonText(r: Reason): string {
    match r
    case OverHalfWay => "it is over half way through"
    case OverMinimumListenTime => "it has been listened to for over the minimum listen time"
  }

  /** What attemptScrobble does: nothing because neither listen condition holds,
      nothing because too little real time has passed, or a scrobble. */
  datatype Decision =
    | NotListenedEnough
    | RealTimeNotPassed
    | Scrobble(reason: Reason, artist: string, track: string, timestamp: int)

  /** attemptScrobble (commands/lastfm/watch.go:339-378) for the session `s`, the
      position now reported, the polling delay and the clock `now` in Unix seconds. */
  function AttemptScrobble(s: TrackState, currentPosition: real, delay: int, now: int): (d: Decision)
    ensures var padded := s.lastPosition + delay as real - currentPosition;
            var t := Threshold(padded, s.length);
            && (d.NotListenedEnough? <==> t == -1.0)
            && (d.Scrobble? <==> t != -1.0 && (now - s.startTime) as real > t - RealTimeErrorMargin)
            && (d.Scrobble? ==> d.artist == s.artist && d.track == s.track && d.timestamp == s.startTime)
            && (d.Scrobble? ==> (d.reason == OverHalfWay <==> padded > s.length / 2.0))
  {
    var padded := s.lastPosition + delay as real - currentPosition;
    var t := Threshold(padded, s.length);
    var realTimePassed := (now - s.startTime) as real;
    if t == -1.0 then NotListenedEnough
    else if realTimePassed > t - RealTimeErrorMargin then
      Scrobble(if padded > s.length / 2.0 then OverHalfWay else OverMinimumListenTime, s.artist, s.track, s.startTime)
    else RealTimeNotPassed
  }

  /** A scrobble is only ever decided for a session that was listened to past half
      its length or past the minimum listen time, and never more than 10 s early in
      real time. */
  lemma ScrobbleNeedsListening(s: TrackState, currentPosition: real, delay: int, now: int)
    requires AttemptScrobble(s, currentPosition, delay, now).Scrobble?
    ensures var padded := s.lastPosition + delay as real - currentPosition;
            padded > s.length / 2.0 || padded > MinListenTime
    ensures var padded := s.lastPosition + delay as real - currentPosition;
            (now - s.startTime) as real > Threshold(padded, s.length) - RealTimeErrorMargin
  {
  }

  /** A session listened past half its length, with enough real time passed, is
      scrobbled for that reason even when it also passed the minimum listen time. */
  lemma HalfWayTakesPrecedence(s: TrackState, currentPosition: real, delay: int, now: int)
    requires s.length >= MinTrackLen
    requires s.lastPosition + delay as real - currentPosition > s.length / 2.0
    requires (now - s.startTime) as real > s.length / 2.0 - RealTimeErrorMargin
    ensures AttemptScrobble(s, currentPosition, delay, now)
            == Scrobble(OverHalfWay, s.artist, s.track, s.startTime)
  {
  }

  /* ---------------- one sample of watchForTracks ---------------- */

  /** One polling round: the output of `playerctl position` and of `playerctl metadata`
      (None when the command failed) and the clock when it was taken. */
  datatype Sample = Sample(positionOutput: Option<string>, metadataOutput: Option<string>, now: int)

  /** getCurrentPosition (commands/lastfm/watch.go:322-337). */
  function ReadPosition(output: Option<string>, parseFloat: string -> Option<real>): (r: Result<real, string>)
    ensures r.Ok? <==> output.Some? && output.value != NoPlayer && parseFloat(TrimSpace(output.value)).Some?
    ensures r.Ok? ==> r.value == parseFloat(TrimSpace(output.value)).value
  {
    if output.None? || output.value == NoPlayer then Err("playerctl - no player could handle this command")
    else match parseFloat(TrimSpace(output.value))
      case None => Err("playerctl - could not parse position")
      case Some(p) => Ok(p)
  }

  /** The length recorded for a new session: "vlc:time" when it parses to at least
      30 s, otherwise -1 (commands/lastfm/watch.go:445-455). */
  function SessionLength(metadata: map<string, string>, parseFloat: string -> Option<real>): (l: real)
    ensures l == -1.0 || l >= MinTrackLen
    ensures l != -1.0 <==> parseFloat(Lookup(metadata, "vlc:time")).Some? && parseFloat(Lookup(metadata, "vlc:time")).value >= MinTrackLen
    ensures l != -1.0 ==> l == parseFloat(Lookup(metadata, "vlc:time")).value
  {
    match parseFloat(Lookup(metadata, "vlc:time"))
    case None => -1.0
    case Some(length) => if length < MinTrackLen then -1.0 else length
  }

  /** The metadata fields a sample needs are present and non-empty. */
  predicate HasFields(m: map<string, string>) {
    Lookup(m, "xesam:artist") != "" && Lookup(m, "xesam:title") != "" && Lookup(m, "vlc:length") != ""
  }

  /** The decision taken and the new state after one sample
      (commands/lastfm/watch.go:384-465). */
  function Step(s: TrackState, sample: Sample, delay: int, parseFloat: string -> Option<real>): (Option<Decision>, TrackState) {
    match ReadPosition(sample.positionOutput, parseFloat)
    case Err(_) => Close(s, delay, sample.now)
    case Ok(p) =>
      if sample.metadataOutput.None? then (None, s)
      else Observe(s, p, MetadataOf(Split(sample.metadataOutput.value, '\n')), delay, sample.now, parseFloat)
  }

  /** The position could not be read (commands/lastfm/watch.go:386-396). */
  function Close(s: TrackState, delay: int, now: int): (Option<Decision>, TrackState) {
    if s.track != "" then (Some(AttemptScrobble(s, 0.0, delay, now)), s.(track := "", artist := ""))
    else (None, s)
  }

  /** A sample with position `p` and metadata `m` (commands/lastfm/watch.go:425-463). */
  function Observe(s: TrackState, p: real, m: map<string, string>, delay: int, now: int,
                   parseFloat: string -> Option<real>): (Option<Decision>, TrackState) {
    if !HasFields(m) then (None, s)
    else
      var artist, track := m["xesam:artist"], m["xesam:title"];
      var changed := artist != s.artist || track != s.track;
      var decision :=
        if (changed || p < s.lastPosition) && s.track != "" && s.length != -1.0
        then Some(AttemptScrobble(s, p, delay, now)) else None;
      if changed then (decision, TrackState(track, artist, p, now, SessionLength(m, parseFloat)))
      else (decision, s.(lastPosition := p, startTime := if p < s.lastPosition then now else s.startTime))
  }

  /** Every field but the position and the start time, or all of them. */
  predicate SameSession(a: TrackState, b: TrackState) {
    a.track == b.track && a.artist == b.artist && a.length == b.length
  }

  /** A failed position read ends the session: with a track, one attempt is made as
      if the position were 0, whatever its length, and artist and title are cleared;
      without one nothing happens. */
  lemma StepPositionFailure(s: TrackState, sample: Sample, delay: int, parseFloat: string -> Option<real>)
    requires ReadPosition(sample.positionOutput, parseFloat).Err?
    ensures var (d, t) := Step(s, sample, delay, parseFloat);
            && (d.Some? <==> s.track != "")
            && (d.Some? ==> d.value == AttemptScrobble(s, 0.0, delay, sample.now))
            && (s.track != "" ==> t == s.(track := "", artist := ""))
            && (s.track == "" ==> t == s)
  {
  }

  /** A failed metadata command, or metadata without artist, title or "vlc:length",
      leaves everything as it was. */
  lemma StepMetadataFailure(s: TrackState, sample: Sample, delay: int, parseFloat: string -> Option<real>)
    requires ReadPosition(sample.positionOutput, parseFloat).Ok?
    requires sample.metadataOutput.None? || !HasFields(MetadataOf(Split(sample.metadataOutput.value, '\n')))
    ensures Step(s, sample, delay, parseFloat) == (None, s)
  {
  }

  /** On a complete sample, a session ends with an attempt exactly when the identity
      changed or the position went backwards, a track was playing and its length was
      usable. */
  lemma ObserveAttempt(s: TrackState, p: real, m: map<string, string>, delay: int, now: int,
                       parseFloat: string -> Option<real>)
    requires HasFields(m)
    ensures var d := Observe(s, p, m, delay, now, parseFloat).0;
            && (d.Some? <==> (m["xesam:artist"] != s.artist || m["xesam:title"] != s.track || p < s.lastPosition)
                             && s.track != "" && s.length != -1.0)
            && (d.Some? ==> d.value == AttemptScrobble(s, p, delay, now))
  {
  }

  /** A new identity starts a new session at this sample. */
  lemma ObserveNewTrack(s: TrackState, p: real, m: map<string, string>, delay: int, now: int,
                        parseFloat: string -> Option<real>)
    requires HasFields(m) && (m["xesam:artist"] != s.artist || m["xesam:title"] != s.track)
    ensures Observe(s, p, m, delay, now, parseFloat).1
            == TrackState(m["xesam:title"], m["xesam:artist"], p, now, SessionLength(m, parseFloat))
  {
  }

  /** With the same identity the position is recorded, and the start time is reset
      only when the position went backwards. */
  lemma ObserveSameTrack(s: TrackState, p: real, m: map<string, string>, delay: int, now: int,
                         parseFloat: string -> Option<real>)
    requires HasFields(m) && m["xesam:artist"] == s.artist && m["xesam:title"] == s.track
    ensures var t := Observe(s, p, m, delay, now, parseFloat).1;
            && SameSession(s, t) && t.lastPosition == p
            && (p < s.lastPosition ==> t.startTime == now)
            && (!(p < s.lastPosition) ==> t.startTime == s.startTime)
  {
  }

  /** What every reachable state satisfies: artist and title are set and cleared
      together, and a playing track has length -1 or at least 30 s. */
  predicate Consistent(s: TrackState) {
    && (s.track == "" <==> s.artist == "")
    && (s.track != "" ==> s.length == -1.0 || s.length >= MinTrackLen)
  }

  lemma StepConsistent(s: TrackState, sample: Sample, delay: int, parseFloat: string -> Option<real>)
    requires Consistent(s)
    ensures Consistent(Step(s, sample, delay, parseFloat).1)
  {
    match ReadPosition(sample.positionOutput, parseFloat)
    case Err(_) =>
    case Ok(p) =>
      if sample.metadataOutput.Some? {
        ObserveConsistent(s, p, MetadataOf(Split(sample.metadataOutput.value, '\n')), delay, sample.now, parseFloat);
      }
  }

  lemma ObserveConsistent(s: TrackState, p: real, m: map<string, string>, delay: int, now: int,
                          parseFloat: string -> Option<real>)
    requires Consistent(s)
    ensures Consistent(Observe(s, p, m, delay, now, parseFloat).1)
  {
  }

  /** A session whose length could not be used is never scrobbled while the player is
      running, but it is when the player goes away: the position read fails, the
      attempt runs without the length check, and half of -1 is a threshold every
      session passes. */
  lemma UnusableLengthScrobbledOnClose(s: TrackState, sample: Sample, delay: int, parseFloat: string -> Option<real>)
    requires s.track != "" && s.length == -1.0
    requires s.lastPosition >= 0.0 && delay >= 0 && sample.now >= s.startTime
    requires ReadPosition(sample.positionOutput, parseFloat).Err?
    ensures Step(s, sample, delay, parseFloat).0 == Some(Scrobble(OverHalfWay, s.artist, s.track, s.startTime))
  {
  }

  /** The decisions and final state of a run of samples, in order. */
  function Run(s: TrackState, samples: seq<Sample>, delay: int, parseFloat: string -> Option<real>): (seq<Decision>, TrackState) {
    if samples == [] then ([], s)
    else
      var (ds, t) := Run(s, samples[..|samples| - 1], delay, parseFloat);
      var (d, u) := Step(t, samples[|samples| - 1], delay, parseFloat);
      (ds + (if d.Some? then [d.value] else []), u)
  }

  lemma RunExtend(s: TrackState, samples: seq<Sample>, delay: int, parseFloat: string -> Option<real>)
    requires samples != []
    ensures var (ds, t) := Run(s, samples[..|samples| - 1], delay, parseFloat);
            var (d, u) := Step(t, samples[|samples| - 1], delay, parseFloat);
            Run(s, samples, delay, parseFloat) == (ds + (if d.Some? then [d.value] else []), u)
  {
  }

  lemma {:induction false} RunConsistent(s: TrackState, samples: seq<Sample>, delay: int, parseFloat: string -> Option<real>)
    requires Consistent(s)
    ensures Consistent(Run(s, samples, delay, parseFloat).1)
  {
    if samples != [] {
      RunConsistent(s, samples[..|samples| - 1], delay, parseFloat);
      StepConsistent(Run(s, samples[..|samples| - 1], delay, parseFloat).1, samples[|samples| - 1], delay, parseFloat);
    }
  }

  /** On graceful exit (commands/lastfm/watch.go:519-529): one last attempt when a
      track is playing and its position can be read, again without the length check. */
  function ExitDecision(s: TrackState, positionOutput: Option<string>, interval: int, now: int,
                        parseFloat: string -> Option<real>): (d: Option<Decision>)
    ensures d.Some? <==> s.track != "" && ReadPosition(positionOutput, parseFloat).Ok?
    ensures d.Some? ==> d.value == AttemptScrobble(s, ReadPosition(positionOutput, parseFloat).value, interval, now)
  {
    if s.track == "" then None
    else match ReadPosition(positionOutput, parseFloat)
      case Err(_) => None
      case Ok(position) => Some(AttemptScrobble(s, position, interval, now))
  }

  /* ---------------- CurrentTrackInfo, updated in place ---------------- */

  /** CurrentTrackInfo (commands/lastfm/watch.go:469-475). */
  class CurrentTrackInfo {
    var track: string
    var artist: string
    var lastPosition: real
    var startTime: int
    var length: real

    /** CurrentTrackInfo{}: every field at its zero value. */
    constructor ()
      ensures State() == TrackState("", "", 0.0, 0, 0.0)
      ensures Consistent(State())
    {
      track, artist, lastPosition, startTime, length := "", "", 0.0, 0, 0.0;
    }

    function State(): TrackState
      reads this
    {
      TrackState(track, artist, lastPosition, startTime, length)
    }

    /** One iteration of the loop of watchForTracks (commands/lastfm/watch.go:384-465). */
    method Tick(sample: Sample, delay: int, parseFloat: string -> Option<real>) returns (decision: Option<Decision>)
      modifies this
      ensures (decision, State()) == Step(old(State()), sample, delay, parseFloat)
    {
      var position := ReadPosition(sample.positionOutput, parseFloat);
      if position.Err? {
        decision := CloseSession(delay, sample.now);
        return;
      }
      if sample.metadataOutput.None? {
        return None;
      }
      var metadata := ParseMetadata(sample.metadataOutput.value);
      decision := Apply(position.value, metadata, delay, sample.now, parseFloat);
    }

    /** The position could not be read: the session is closed. */
    method CloseSession(delay: int, now: int) returns (decision: Option<Decision>)
      modifies this
      ensures (decision, State()) == Close(old(State()), delay, now)
    {
      decision := None;
      if track != "" {
        decision := Some(AttemptScrobble(State(), 0.0, delay, now));
        track := "";
        artist := "";
      }
    }

    /** The part of an iteration after both commands succeeded. */
    method Apply(p: real, metadata: map<string, string>, delay: int, now: int, parseFloat: string -> Option<real>)
      returns (decision: Option<Decision>)
      modifies this
      ensures (decision, State()) == Observe(old(State()), p, metadata, delay, now, parseFloat)
    {
      decision := None;
      if Lookup(metadata, "xesam:artist") == "" || Lookup(metadata, "xesam:title") == "" || Lookup(metadata, "vlc:length") == "" {
        return;
      }
      var newArtist := metadata["xesam:artist"];
      var newTrack := metadata["xesam:title"];
      if ((newArtist != artist || newTrack != track) || p < lastPosition) && track != "" && length != -1.0 {
        decision := Some(AttemptScrobble(State(), p, delay, now));
      }
      if newArtist != artist || newTrack != track {
        track := newTrack;
        artist := newArtist;
        lastPosition := p;
        startTime := now;
        length := SessionLength(metadata, parseFloat);
      } else {
        if p < lastPosition {
          startTime := now;
        }
        lastPosition := p;
      }
    }

    /** watchForTracks (commands/lastfm/watch.go:380-467) over a finite run of
        samples, returning the attempts in the order they were made. */
    method WatchForTracks(samples: seq<Sample>, delay: int, parseFloat: string -> Option<real>)
      returns (decisions: seq<Decision>)
      modifies this
      ensures (decisions, State()) == Run(old(State()), samples, delay, parseFloat)
    {
      decisions := [];
      ghost var initial := State();
      var i := 0;
      while i < |samples|
        invariant 0 <= i <= |samples|
        invariant decisions == Run(initial, samples[..i], delay, parseFloat).0
        invariant State() == Run(initial, samples[..i], delay, parseFloat).1
      {
        ghost var before := State();
        var d := Tick(samples[i], delay, parseFloat);
        RunExtend(initial, samples[..i + 1], delay, parseFloat);
        assert samples[..i + 1][..i] == samples[..i];
        if d.Some? {
          decisions := decisions + [d.value];
        }
        i := i + 1;
      }
      assert samples[..i] == samples;
    }
  }

  /* ---------------- the credentials file ---------------- */

  datatype CredentialError =
    | UnknownKey(rawKey: string)
    | MissingSeparator
    | ApiKeyNotFound
    | ApiSecretNotFound

  /** How reading the credentials file ends: ready to scrobble, in need of the
      browser authorisation (which is not modelled), or an error. */
  datatype CredentialStatus = Ready | NeedsSession | Failed(error: CredentialError)

  /** The parts of a line on each side of its first '='. */
  function LineKey(line: string): string {
    line[..FindChar(line, '=')]
  }

  function LineValue(line: string): string
    requires '=' in line
  {
    line[FindChar(line, '=') + 1..]
  }

  /** The effect of one line of the credentials file (commands/lastfm/watch.go:243-264):
      a blank line is skipped; a line without '=' makes the program fail (reading the
      missing second part of strings.SplitN is out of range); the trimmed key selects
      the field that gets the trimmed value. */
  function ApplyCredentialLine(c: Credentials, line: string): Result<Credentials, CredentialError> {
    if TrimSpace(line) == "" then Ok(c)
    else if '=' !in line then Err(MissingSeparator)
    else
      var key, value := TrimSpace(LineKey(line)), TrimSpace(LineValue(line));
      if key == "api_key" then Ok(c.(apiKey := value))
      else if key == "api_secret" then Ok(c.(apiSecret := value))
      else if key == "session_key" then Ok(c.(sessionKey := value))
      else if key == "username" then Ok(c.(username := value))
      else Err(UnknownKey(LineKey(line)))
  }

  /** The lines read in order; the first failing line stops the scan. */
  function ScanCredentials(lines: seq<string>): Result<Credentials, CredentialError> {
    if lines == [] then Ok(Credentials("", "", "", ""))
    else match ScanCredentials(lines[..|lines| - 1])
      case Err(e) => Err(e)
      case Ok(c) => ApplyCredentialLine(c, lines[|lines| - 1])
  }

  /** The key ends at the first '=': the value keeps any later '='. */
  lemma CredentialLineParts(rawKey: string, rawValue: string)
    requires '=' !in rawKey
    ensures LineKey(rawKey + "=" + rawValue) == rawKey
    ensures LineValue(rawKey + "=" + rawValue) == rawValue
  {
    var line := rawKey + "=" + rawValue;
    FindCharAfter(rawKey, '=', rawValue);
    assert line[..|rawKey|] == rawKey;
    assert line[|rawKey| + 1..] == rawValue;
  }

  /** A "key = value" line for api_key sets exactly ApiKey to the trimmed value. */
  lemma ApiKeyLine(c: Credentials, rawKey: string, rawValue: string)
    requires '=' !in rawKey && TrimSpace(rawKey) == "api_key"
    ensures ApplyCredentialLine(c, rawKey + "=" + rawValue) == Ok(c.(apiKey := TrimSpace(rawValue)))
  {
    CredentialLineParts(rawKey, rawValue);
    NotBlankWithSeparator(rawKey, rawValue);
  }

  /** A line with an unknown key fails with the key as written, untrimmed. */
  lemma UnknownKeyLine(c: Credentials, rawKey: string, rawValue: string)
    requires '=' !in rawKey
    requires TrimSpace(rawKey) !in {"api_key", "api_secret", "session_key", "username"}
    ensures ApplyCredentialLine(c, rawKey + "=" + rawValue) == Err(UnknownKey(rawKey))
  {
    CredentialLineParts(rawKey, rawValue);
    NotBlankWithSeparator(rawKey, rawValue);
  }

  lemma NotBlankWithSeparator(rawKey: string, rawValue: string)
    ensures TrimSpace(rawKey + "=" + rawValue) != ""
  {
    var line := rawKey + "=" + rawValue;
    assert line[|rawKey|] == '=';
    TrimKeepsNonSpace(line, |rawKey|);
  }

  /** Blank lines change nothing. */
  lemma BlankCredentialLine(lines: seq<string>, line: string)
    requires TrimSpace(line) == ""
    ensures ScanCredentials(lines + [line]) == ScanCredentials(lines)
  {
    assert (lines + [line])[..|lines|] == lines;
  }

  /** One line of the scan extends the credentials read so far. */
  lemma ScanStep(lines: seq<string>, i: nat, c: Credentials)
    requires i < |lines| && ScanCredentials(lines[..i]) == Ok(c)
    ensures ScanCredentials(lines[..i + 1]) == ApplyCredentialLine(c, lines[i])
  {
    var prefix := lines[..i + 1];
    assert prefix[..|prefix| - 1] == lines[..i] && prefix[|prefix| - 1] == lines[i];
    ScanLast(prefix, c);
  }

  lemma ScanLast(lines: seq<string>, c: Credentials)
    requires lines != [] && ScanCredentials(lines[..|lines| - 1]) == Ok(c)
    ensures ScanCredentials(lines) == ApplyCredentialLine(c, lines[|lines| - 1])
  {
  }

  /** A line that fails decides the scan of the whole content. */
  lemma ScanFails(lines: seq<string>, i: nat)
    requires i < |lines| && ScanCredentials(lines[..i + 1]).Err?
    ensures ScanCredentials(lines) == ScanCredentials(lines[..i + 1])
  {
    CredentialErrorSticks(lines[..i + 1], lines[i + 1..]);
    assert lines[..i + 1] + lines[i + 1..] == lines;
  }

  /** Once a line has failed, later lines are not looked at. */
  lemma {:induction false} CredentialErrorSticks(lines: seq<string>, more: seq<string>)
    requires ScanCredentials(lines).Err?
    ensures ScanCredentials(lines + more) == ScanCredentials(lines)
    decreases |more|
  {
    if more != [] {
      var init := more[..|more| - 1];
      assert (lines + more)[..|lines + more| - 1] == lines + init;
      CredentialErrorSticks(lines, init);
    } else {
      assert lines + more == lines;
    }
  }

  /** The credential checks after the scan (commands/lastfm/watch.go:273-281): an
      unknown key yields empty credentials; a missing API key is reported before a
      missing secret, and both return what was read. */
  function CredentialsOutcome(scan: Result<Credentials, CredentialError>): (r: (Credentials, CredentialStatus))
    ensures scan.Err? ==> r == (Credentials("", "", "", ""), Failed(scan.error))
    ensures scan.Ok? ==> r.0 == scan.value
    ensures r.1 == Ready ==> r.0.apiKey != "" && r.0.apiSecret != "" && r.0.sessionKey != ""
    ensures scan.Ok? && scan.value.apiKey == "" ==> r.1 == Failed(ApiKeyNotFound)
    ensures scan.Ok? && scan.value.apiKey != "" && scan.value.apiSecret == "" ==> r.1 == Failed(ApiSecretNotFound)
    ensures scan.Ok? && scan.value.apiKey != "" && scan.value.apiSecret != "" ==>
              (r.1 == NeedsSession <==> scan.value.sessionKey == "")
  {
    match scan
    case Err(e) => (Credentials("", "", "", ""), Failed(e))
    case Ok(c) =>
      if c.apiKey == "" then (c, Failed(ApiKeyNotFound))
      else if c.apiSecret == "" then (c, Failed(ApiSecretNotFound))
      else if c.sessionKey == "" then (c, NeedsSession)
      else (c, Ready)
  }

  /** The body of the scanner loop for one line (commands/lastfm/watch.go:243-264). */
  method ApplyLine(c: Credentials, line: string) returns (r: Result<Credentials, CredentialError>)
    ensures r == ApplyCredentialLine(c, line)
  {
    if TrimSpace(line) == "" {
      return Ok(c);
    }
    if '=' !in line {
      return Err(MissingSeparator);
    }
    var key, value := TrimSpace(LineKey(line)), TrimSpace(LineValue(line));
    if key == "api_key" {
      r := Ok(c.(apiKey := value));
    } else if key == "api_secret" {
      r := Ok(c.(apiSecret := value));
    } else if key == "session_key" {
      r := Ok(c.(sessionKey := value));
    } else if key == "username" {
      r := Ok(c.(username := value));
    } else {
      r := Err(UnknownKey(LineKey(line)));
    }
  }

  /** The scanner loop of setupOrGetCredentials (commands/lastfm/watch.go:238-281)
      over the file's text. */
  method ReadCredentials(content: string) returns (credentials: Credentials, status: CredentialStatus)
    ensures (credentials, status) == CredentialsOutcome(ScanCredentials(Lines(content)))
  {
    var lines := Lines(content);
    credentials := Credentials("", "", "", "");
    var i := 0;
    while i < |lines|
      invariant 0 <= i <= |lines|
      invariant ScanCredentials(lines[..i]) == Ok(credentials)
    {
      ScanStep(lines, i, credentials);
      var next := ApplyLine(credentials, lines[i]);
      if next.Err? {
        ScanFails(lines, i);
        return Credentials("", "", "", ""), Failed(next.error);
      }
      credentials := next.value;
      i := i + 1;
    }
    assert lines[..i] == lines;
    assert ScanCredentials(lines) == Ok(credentials);
    if credentials.apiKey == "" {
      return credentials, Failed(ApiKeyNotFound);
    }
    if credentials.apiSecret == "" {
      return credentials, Failed(ApiSecretNotFound);
    }
    if credentials.sessionKey == "" {
      return credentials, NeedsSession;
    }
    return credentials, Ready;
  }
}
