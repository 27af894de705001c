/**
 * `spotify set-origin <tag> [origin]`, commands/spotify/set-origin.go: associates a
 * tag with the Spotify playlist or album it was taken from, or removes that
 * association when no origin is given. The associations live in the configuration
 * file as a map from tag names to origins.
 */
module SetOrigin {
  import opened Wrappers

  /** The associations after the command, or its error (commands/spotify/set-origin.go:66-78).
      A missing map starts out empty; an empty origin removes the tag's association,
      which must exist and be non-empty; any other origin is stored for the tag. */
  /** A nil map reads as the empty one. */
  function OrEmpty(associations: Option<map<string, string>>): map<string, string> {
    if associations.Some? then associations.value else map[]
  }

  function Associate(associations: Option<map<string, string>>, tag: string, origin: string): Result<map<string, string>, string> {
    var m := OrEmpty(associations);
    if origin == "" then
      if tag !in m || m[tag] == "" then Err("no association for tag " + tag)
      else Ok(m - {tag})
    else Ok(m[tag := origin])
  }

  /** Only the tag's own association changes; setting one and then clearing it leaves
      the map without that tag; clearing twice fails the second time. */
  lemma AssociateSpec(associations: Option<map<string, string>>, tag: string, origin: string)
    ensures var m := OrEmpty(associations);
            var r := Associate(associations, tag, origin);
            && (r.Ok? ==> forall k :: k != tag ==> (k in r.value <==> k in m) && (k in m ==> r.value[k] == m[k]))
            && (origin != "" ==> r.Ok? && tag in r.value && r.value[tag] == origin)
            && (origin == "" ==> (r.Ok? <==> tag in m && m[tag] != "") && (r.Ok? ==> tag !in r.value))
  {
  }

  lemma SetThenClear(associations: Option<map<string, string>>, tag: string, origin: string)
    requires origin != ""
    ensures var m := OrEmpty(associations);
            var updated := Associate(associations, tag, origin).value;
            && Associate(Some(updated), tag, "") == Ok(m - {tag})
            && Associate(Some(m - {tag}), tag, "").Err?
  {
    var m := OrEmpty(associations);
    assert m[tag := origin] - {tag} == m - {tag};
  }

  /** The part of the configuration the command changes. */
  class Configuration {
    var associations: Option<map<string, string>>

    constructor(associations: Option<map<string, string>>)
      ensures this.associations == associations
    {
      this.associations := associations;
    }

    /** setupOriginRunner (commands/spotify/set-origin.go:45-85). `storedTags` is
        the tag library or its read error, and `writeError` the outcome of writing
        the configuration, which happens only when the change succeeds. */
    method SetupOrigin(positional: seq<string>, storedTags: Result<set<string>, string>, writeError: Option<string>)
      returns (err: Option<string>)
      requires 1 <= |positional| <= 2
      modifies this
      ensures var tag := positional[0];
              var origin := if |positional| == 2 then positional[1] else "";
              var r := Associate(old(associations), tag, origin);
              && err == (if storedTags.Err? then Some(storedTags.error)
                         else if tag !in storedTags.value then Some("tag " + tag + " does not exist")
                         else if r.Err? then Some(r.error)
                         else writeError)
              && associations == (if err.None? then Some(r.value) else old(associations))
    {
      var tag := positional[0];
      var origin := "";
      if |positional| == 2 {
        origin := positional[1];
      }
      if storedTags.Err? {
        return Some(storedTags.error);
      }
      if tag !in storedTags.value {
        return Some("tag " + tag + " does not exist");
      }
      var m := map[];
      if associations.Some? {
        m := associations.value;
      }
      if origin == "" {
        if tag !in m || m[tag] == "" {
          return Some("no association for tag " + tag);
        }
        m := m - {tag};
      } else {
        m := m[tag := origin];
      }
      if writeError.Some? {
        return writeError;
      }
      associations := Some(m);
      return None;
    }
  }
}
