/**
 * The older scrobble watcher of commands/lastfm/lastfm.go. The same polling loop as
 * commands/lastfm/watch.go, written with five local variables instead of a
 * CurrentTrackInfo, and with the eligibility decision inline. The session is judged
 * only when the artist or title changes; any failed read skips the round. The request
 * signing of this file is the same function as in watch.go and is modelled once, by
 * LastfmSignature.
 */
module LegacyLastfm {
  import opened Wrappers
  import opened Text
  import opened CurrentSong
  import opened LastfmSignature
  import opened Watch

  /* ---------------- the inline eligibility decision ---------------- */

  /** The decision of commands/lastfm/lastfm.go:367-406 for the session `s`, the new
      position and the clock. The padding always uses DEFAULT_INTERVAL_SECONDS, not
      the configured interval. */
  function LegacyDecision(s: TrackState, position: real, now: int): Decision {
    var padded := s.lastPosition + DefaultIntervalSeconds as real - position;
    var timeConditionPassed :=
      if padded > s.length / 2.0 then s.length / 2.0
      else if padded > MinListenTime then MinListenTime
      else -1.0;
    var realTimePassed := (now - s.startTime) as real;
    if timeConditionPassed == -1.0 then NotListenedEnough
    else if realTimePassed > timeConditionPassed - RealTimeErrorMargin then
      var reason := if padded > s.length / 2.0 then OverHalfWay else OverMinimumListenTime;
      Scrobble(reason, s.artist, s.track, s.startTime)
    else RealTimeNotPassed
  }

  /** The inline decision is attemptScrobble of watch.go with the delay fixed at 10 s:
      the same thresholds, the same precedence, margin and reason. */
  lemma LegacyDecisionIsAttemptScrobble(s: TrackState, position: real, now: int)
    ensures LegacyDecision(s, position, now) == AttemptScrobble(s, position, DefaultIntervalSeconds, now)
  {
  }

  /* ---------------- one round of the loop ---------------- */

  /** The five loop variables before the first round. */
  const Initial: TrackState := TrackState("", "", 0.0, 0, 0.0)

  /** The decision taken and the new loop variables after one round
      (commands/lastfm/lastfm.go:313-430). */
  function LegacyStep(s: TrackState, sample: Sample, parseFloat: string -> Option<real>): (Option<Decision>, TrackState) {
    match ReadPosition(sample.positionOutput, parseFloat)
    case Err(_) => (None, s)
    case Ok(p) =>
      if sample.metadataOutput.None? then (None, s)
      else LegacyObserve(s, p, MetadataOf(Split(sample.metadataOutput.value, '\n')), sample.now, parseFloat)
  }

  /** A round whose position `p` and metadata `m` were read
      (commands/lastfm/lastfm.go:357-428). */
  function LegacyObserve(s: TrackState, p: real, m: map<string, string>, now: int,
                         parseFloat: string -> Option<real>): (Option<Decision>, TrackState) {
    if !HasFields(m) then (None, s)
    else
      var artist, track := m["xesam:artist"], m["xesam:title"];
      if artist != s.artist || track != s.track then
        var decision := if s.track != "" && s.length != -1.0 then Some(LegacyDecision(s, p, now)) else None;
        (decision, TrackState(track, artist, p, now, SessionLength(m, parseFloat)))
      else (None, s.(lastPosition := p))
  }

  /** Any failed read skips the round: no decision and every loop variable as it was
      (commands/lastfm/lastfm.go:316-361). */
  lemma LegacyFailureSkips(s: TrackState, sample: Sample, parseFloat: string -> Option<real>)
    requires || ReadPosition(sample.positionOutput, parseFloat).Err?
             || sample.metadataOutput.None?
             || !HasFields(MetadataOf(Split(sample.metadataOutput.value, '\n')))
    ensures LegacyStep(s, sample, parseFloat) == (None, s)
  {
  }

  /** A round with readable position `p` and metadata `m`. */
  predicate ReadOk(sample: Sample, parseFloat: string -> Option<real>, p: real, m: map<string, string>) {
    && ReadPosition(sample.positionOutput, parseFloat) == Ok(p)
    && sample.metadataOutput.Some?
    && m == MetadataOf(Split(sample.metadataOutput.value, '\n'))
    && HasFields(m)
  }

  /** A decision is taken exactly when artist or title changed while a session with a
      usable length was open, and it is the inline decision for that session. */
  lemma LegacyDecisionOnlyOnChange(s: TrackState, sample: Sample, parseFloat: string -> Option<real>, p: real, m: map<string, string>)
    requires ReadOk(sample, parseFloat, p, m)
    ensures var d := LegacyStep(s, sample, parseFloat).0;
            d.Some? <==> (m["xesam:artist"] != s.artist || m["xesam:title"] != s.track) && s.track != "" && s.length != -1.0
    ensures var d := LegacyStep(s, sample, parseFloat).0;
            d.Some? ==> d.value == LegacyDecision(s, p, sample.now)
  {
  }

  /** With the same artist and title only the last position moves; a position that
      went backwards neither triggers a decision nor restarts the session. */
  lemma LegacySameTrack(s: TrackState, sample: Sample, parseFloat: string -> Option<real>, p: real, m: map<string, string>)
    requires ReadOk(sample, parseFloat, p, m)
    requires m["xesam:artist"] == s.artist && m["xesam:title"] == s.track
    ensures LegacyStep(s, sample, parseFloat) == (None, s.(lastPosition := p))
  {
  }

  /** On a new artist or title the session restarts from the sample. */
  lemma LegacyNewTrack(s: TrackState, sample: Sample, parseFloat: string -> Option<real>, p: real, m: map<string, string>)
    requires ReadOk(sample, parseFloat, p, m)
    requires m["xesam:artist"] != s.artist || m["xesam:title"] != s.track
    ensures var t := LegacyStep(s, sample, parseFloat).1;
            && t.track == m["xesam:title"] && t.artist == m["xesam:artist"]
            && t.lastPosition == p && t.startTime == sample.now
            && (t.length == -1.0 || t.length >= MinTrackLen)
            && t.length == SessionLength(m, parseFloat)
  {
  }

  /** Where the two revisions part: a rewind within a session with a usable length is
      judged by watch.go and ignored by lastfm.go. */
  lemma RewindJudgedOnlyByWatch(s: TrackState, sample: Sample, delay: int, parseFloat: string -> Option<real>, p: real, m: map<string, string>)
    requires ReadOk(sample, parseFloat, p, m)
    requires m["xesam:artist"] == s.artist && m["xesam:title"] == s.track
    requires s.track != "" && s.length != -1.0 && p < s.lastPosition
    ensures LegacyStep(s, sample, parseFloat).0.None?
    ensures Step(s, sample, delay, parseFloat).0 == Some(AttemptScrobble(s, p, delay, sample.now))
  {
  }

  /** The loop keeps the variables consistent: track and artist are set together and
      a session's length is -1 or at least 30 s. */
  lemma LegacyStepConsistent(s: TrackState, sample: Sample, parseFloat: string -> Option<real>)
    requires Consistent(s)
    ensures Consistent(LegacyStep(s, sample, parseFloat).1)
  {
    match ReadPosition(sample.positionOutput, parseFloat)
    case Err(_) =>
    case Ok(p) =>
      if sample.metadataOutput.Some? {
        LegacyObserveConsistent(s, p, MetadataOf(Split(sample.metadataOutput.value, '\n')), sample.now, parseFloat);
      }
  }

  lemma LegacyObserveConsistent(s: TrackState, p: real, m: map<string, string>, now: int,
                                parseFloat: string -> Option<real>)
    requires Consistent(s)
    ensures Consistent(LegacyObserve(s, p, m, now, parseFloat).1)
  {
  }

  /** The decisions of the rounds in order, and the variables after the last. */
  function LegacyRun(s: TrackState, samples: seq<Sample>, parseFloat: string -> Option<real>): (seq<Decision>, TrackState) {
    if samples == [] then ([], s)
    else
      var (ds, t) := LegacyRun(s, samples[..|samples| - 1], parseFloat);
      var (d, u) := LegacyStep(t, samples[|samples| - 1], parseFloat);
      (if d.Some? then ds + [d.value] else ds, u)
  }

  lemma {:induction false} LegacyRunConsistent(s: TrackState, samples: seq<Sample>, parseFloat: string -> Option<real>)
    requires Consistent(s)
    ensures Consistent(LegacyRun(s, samples, parseFloat).1)
  {
    if samples != [] {
      LegacyRunConsistent(s, samples[..|samples| - 1], parseFloat);
      LegacyStepConsistent(LegacyRun(s, samples[..|samples| - 1], parseFloat).1, samples[|samples| - 1], parseFloat);
    }
  }

  lemma LegacyRunExtend(s: TrackState, samples: seq<Sample>, parseFloat: string -> Option<real>)
    requires samples != []
    ensures var (ds, t) := LegacyRun(s, samples[..|samples| - 1], parseFloat);
            var (d, u) := LegacyStep(t, samples[|samples| - 1], parseFloat);
            LegacyRun(s, samples, parseFloat) == (if d.Some? then ds + [d.value] else ds, u)
  {
  }

  /** Every scrobble of a run is for a session that had a track. */
  lemma {:induction false} LegacyRunScrobblesHaveTrack(s: TrackState, samples: seq<Sample>, parseFloat: string -> Option<real>)
    ensures forall d :: d in LegacyRun(s, samples, parseFloat).0 && d.Scrobble? ==> d.track != ""
  {
    if samples != [] {
      var init := samples[..|samples| - 1];
      LegacyRunScrobblesHaveTrack(s, init, parseFloat);
      LegacyRunExtend(s, samples, parseFloat);
      var (ds, t) := LegacyRun(s, init, parseFloat);
      LegacyDecisionSession(t, samples[|samples| - 1], parseFloat);
    }
  }

  lemma LegacyDecisionSession(t: TrackState, sample: Sample, parseFloat: string -> Option<real>)
    ensures var d := LegacyStep(t, sample, parseFloat).0;
            d.Some? && d.value.Scrobble? ==> d.value.track == t.track && t.track != ""
  {
  }

  /** watchForTracks of commands/lastfm/lastfm.go:304-432 over a finite run of rounds.
      `delay` only sets the sleep between rounds, so it leaves no trace in the result. */
  method WatchForTracks(samples: seq<Sample>, delay: int, parseFloat: string -> Option<real>)
    returns (decisions: seq<Decision>, final: TrackState)
    ensures (decisions, final) == LegacyRun(Initial, samples, parseFloat)
  {
    var currentTrack, currentArtist := "", "";
    var currentTrackLength, currentTrackLastPosition := 0.0, 0.0;
    var currentTrackFirstTimestamp := 0;
    decisions := [];
    var i := 0;
    while i < |samples|
      invariant 0 <= i <= |samples|
      invariant (decisions, TrackState(currentTrack, currentArtist, currentTrackLastPosition, currentTrackFirstTimestamp, currentTrackLength))
                == LegacyRun(Initial, samples[..i], parseFloat)
    {
      assert samples[..i + 1][..i] == samples[..i];
      var sample := samples[i];
      i := i + 1;
      var position := ReadPosition(sample.positionOutput, parseFloat);
      if position.Err? || sample.metadataOutput.None? {
        continue;
      }
      var metadata := ParseMetadata(sample.metadataOutput.value);
      if Lookup(metadata, "xesam:artist") == "" || Lookup(metadata, "xesam:title") == "" || Lookup(metadata, "vlc:length") == "" {
        continue;
      }
      var artist, track := metadata["xesam:artist"], metadata["xesam:title"];
      if artist != currentArtist || track != currentTrack {
        if currentTrack != "" && currentTrackLength != -1.0 {
          var s := TrackState(currentTrack, currentArtist, currentTrackLastPosition, currentTrackFirstTimestamp, currentTrackLength);
          decisions := decisions + [LegacyDecision(s, position.value, sample.now)];
        }
        currentTrack, currentArtist := track, artist;
        currentTrackLastPosition := position.value;
        currentTrackFirstTimestamp := sample.now;
        currentTrackLength := SessionLength(metadata, parseFloat);
      } else {
        currentTrackLastPosition := position.value;
      }
    }
    assert samples[..i] == samples;
    final := TrackState(currentTrack, currentArtist, currentTrackLastPosition, currentTrackFirstTimestamp, currentTrackLength);
  }

  /* ---------------- the credentials file ---------------- */

  const NoCredentials: Credentials := Credentials("", "", "", "")

  /** One line of the credentials file (commands/lastfm/lastfm.go:228-249): only
      api_key, api_secret and session_key are known; "username" is an unknown key in
      this revision. */
  function LegacyApplyCredentialLine(c: Credentials, line: string): Result<Credentials, CredentialError> {
    if TrimSpace(line) == "" then Ok(c)
    else if '=' !in line then Err(MissingSeparator)
    else
      var key, value := TrimSpace(LineKey(line)), TrimSpace(LineValue(line));
      if key == "api_key" then Ok(c.(apiKey := value))
      else if key == "api_secret" then Ok(c.(apiSecret := value))
      else if key == "session_key" then Ok(c.(sessionKey := value))
      else Err(UnknownKey(LineKey(line)))
  }

  function LegacyScanCredentials(lines: seq<string>): Result<Credentials, CredentialError> {
    if lines == [] then Ok(NoCredentials)
    else match LegacyScanCredentials(lines[..|lines| - 1])
      case Err(e) => Err(e)
      case Ok(c) => LegacyApplyCredentialLine(c, lines[|lines| - 1])
  }

  /** A username line, accepted by watch.go, is rejected here. */
  lemma UsernameRejected(c: Credentials, rawKey: string, rawValue: string)
    requires '=' !in rawKey && TrimSpace(rawKey) == "username"
    ensures LegacyApplyCredentialLine(c, rawKey + "=" + rawValue) == Err(UnknownKey(rawKey))
    ensures ApplyCredentialLine(c, rawKey + "=" + rawValue) == Ok(c.(username := TrimSpace(rawValue)))
  {
    CredentialLineParts(rawKey, rawValue);
    NotBlankWithSeparator(rawKey, rawValue);
  }

  /** No scan of this revision ever fills in the username. */
  lemma {:induction false} LegacyScanNoUsername(lines: seq<string>)
    ensures LegacyScanCredentials(lines).Ok? ==> LegacyScanCredentials(lines).value.username == ""
  {
    if lines != [] {
      var init := lines[..|lines| - 1];
      LegacyScanNoUsername(init);
      var prev := LegacyScanCredentials(init);
      if prev.Ok? {
        LegacyLineNoUsername(prev.value, lines[|lines| - 1]);
      }
    }
  }

  lemma LegacyLineNoUsername(c: Credentials, line: string)
    requires c.username == ""
    ensures LegacyApplyCredentialLine(c, line).Ok? ==> LegacyApplyCredentialLine(c, line).value.username == ""
  {
  }

  /** The checks after the scan (commands/lastfm/lastfm.go:253-263): every failure
      returns empty credentials, a missing API key before a missing secret. */
  function LegacyCredentialsOutcome(scan: Result<Credentials, CredentialError>): (r: (Credentials, CredentialStatus))
    ensures r.1.Failed? <==> scan.Err? || scan.value.apiKey == "" || scan.value.apiSecret == ""
    ensures r.1.Failed? ==> r.0 == NoCredentials
    ensures !r.1.Failed? ==> r.0 == scan.value
    ensures scan.Err? ==> r.1 == Failed(scan.error)
    ensures scan.Ok? && scan.value.apiKey == "" ==> r.1 == Failed(ApiKeyNotFound)
    ensures scan.Ok? && scan.value.apiKey != "" && scan.value.apiSecret == "" ==> r.1 == Failed(ApiSecretNotFound)
    ensures !r.1.Failed? ==> (r.1 == NeedsSession <==> r.0.sessionKey == "")
  {
    match scan
    case Err(e) => (NoCredentials, Failed(e))
    case Ok(c) =>
      if c.apiKey == "" then (NoCredentials, Failed(ApiKeyNotFound))
      else if c.apiSecret == "" then (NoCredentials, Failed(ApiSecretNotFound))
      else if c.sessionKey == "" then (c, NeedsSession)
      else (c, Ready)
  }

  /** The body of the scanner loop for one line (commands/lastfm/lastfm.go:228-249). */
  method LegacyApplyLine(c: Credentials, line: string) returns (r: Result<Credentials, CredentialError>)
    ensures r == LegacyApplyCredentialLine(c, line)
  {
    if TrimSpace(line) == "" {
      return Ok(c);
    }
    if '=' !in line {
      return Err(MissingSeparator);
    }
    var key, value := TrimSpace(LineKey(line)), TrimSpace(LineValue(line));
    if key == "api_key" {
      r := Ok(c.(apiKey := value));
    } else if key == "api_secret" {
      r := Ok(c.(apiSecret := value));
    } else if key == "session_key" {
      r := Ok(c.(sessionKey := value));
    } else {
      r := Err(UnknownKey(LineKey(line)));
    }
  }

  /** The scanner loop of setupOrGetCredentials (commands/lastfm/lastfm.go:224-263). */
  method LegacyReadCredentials(content: string) returns (credentials: Credentials, status: CredentialStatus)
    ensures (credentials, status) == LegacyCredentialsOutcome(LegacyScanCredentials(Lines(content)))
  {
    var lines := Lines(content);
    credentials := NoCredentials;
    var i := 0;
    while i < |lines|
      invariant 0 <= i <= |lines|
      invariant LegacyScanCredentials(lines[..i]) == Ok(credentials)
    {
      LegacyScanStep(lines, i, credentials);
      var next := LegacyApplyLine(credentials, lines[i]);
      if next.Err? {
        LegacyScanFails(lines, i);
        return NoCredentials, Failed(next.error);
      }
      credentials := next.value;
      i := i + 1;
    }
    assert lines[..i] == lines;
    assert LegacyScanCredentials(lines) == Ok(credentials);
    if credentials.apiKey == "" {
      return NoCredentials, Failed(ApiKeyNotFound);
    }
    if credentials.apiSecret == "" {
      return NoCredentials, Failed(ApiSecretNotFound);
    }
    status := if credentials.sessionKey == "" then NeedsSession else Ready;
  }

  /** One line of the scan extends the credentials read so far. */
  lemma LegacyScanStep(lines: seq<string>, i: nat, c: Credentials)
    requires i < |lines| && LegacyScanCredentials(lines[..i]) == Ok(c)
    ensures LegacyScanCredentials(lines[..i + 1]) == LegacyApplyCredentialLine(c, lines[i])
  {
    var prefix := lines[..i + 1];
    assert prefix[..|prefix| - 1] == lines[..i] && prefix[|prefix| - 1] == lines[i];
    LegacyScanLast(prefix, c);
  }

  /** A line that fails decides the scan of the whole content. */
  lemma LegacyScanFails(lines: seq<string>, i: nat)
    requires i < |lines| && LegacyScanCredentials(lines[..i + 1]).Err?
    ensures LegacyScanCredentials(lines) == LegacyScanCredentials(lines[..i + 1])
  {
    LegacyErrorSticks(lines[..i + 1], lines[i + 1..]);
    assert lines[..i + 1] + lines[i + 1..] == lines;
  }

  lemma LegacyScanLast(lines: seq<string>, c: Credentials)
    requires lines != [] && LegacyScanCredentials(lines[..|lines| - 1]) == Ok(c)
    ensures LegacyScanCredentials(lines) == LegacyApplyCredentialLine(c, lines[|lines| - 1])
  {
  }

  /** Once a line has failed, later lines are not looked at. */
  lemma {:induction false} LegacyErrorSticks(lines: seq<string>, more: seq<string>)
    requires LegacyScanCredentials(lines).Err?
    ensures LegacyScanCredentials(lines + more) == LegacyScanCredentials(lines)
    decreases |more|
  {
    if more != [] {
      var init := more[..|more| - 1];
      assert (lines + more)[..|lines + more| - 1] == lines + init;
      LegacyErrorSticks(lines, init);
    } else {
      assert lines + more == lines;
    }
  }
}
