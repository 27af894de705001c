/**
 * Request signing for the Last.fm API, generateSignature in commands/lastfm/watch.go
 * (an identical copy is in commands/lastfm/lastfm.go). Following the "Sign your calls"
 * step of the Last.fm authentication how-to, the string that is hashed is every
 * parameter name in ascending order, each followed by its first value, and then the
 * shared secret. The MD5 digest and its hex encoding are a parameter `digest`.
 */
module LastfmSignature {
  import opened Text

  /** url.Values: every parameter name with its list of values. */
  type Values = map<string, seq<string>>

  /** url.Values.Get: the first value of `key`, or "" when it has none. */
  function Get(params: Values, key: string): string {
    if key in params && params[key] != [] then params[key][0] else ""
  }

  /** url.Values.Set: `key` gets the single value `value`. */
  function Set(params: Values, key: string, value: string): (r: Values)
    ensures r.Keys == params.Keys + {key}
    ensures Get(r, key) == value
    ensures forall k :: k in params && k != key ==> k in r && r[k] == params[k]
  {
    params[key := [value]]
  }

  /* ---------------- Go's string order ---------------- */

  /** Go's `<` on strings compares UTF-8 bytes lexicographically, which orders
      strings as comparing their code points lexicographically does. */
  predicate Less(a: string, b: string)
    decreases |a|
  {
    if a == [] then b != []
    else if b == [] then false
    else if a[0] != b[0] then a[0] < b[0]
    else Less(a[1..], b[1..])
  }

  lemma {:induction false} LessIrreflexive(a: string)
    ensures !Less(a, a)
    decreases |a|
  {
    if a != [] {
      LessIrreflexive(a[1..]);
    }
  }

  lemma {:induction false} LessTransitive(a: string, b: string, c: string)
    requires Less(a, b) && Less(b, c)
    ensures Less(a, c)
    decreases |a|
  {
    if a != [] && b != [] && c != [] && a[0] == b[0] && b[0] == c[0] {
      LessTransitive(a[1..], b[1..], c[1..]);
    }
  }

  lemma {:induction false} LessTotal(a: string, b: string)
    requires a != b
    ensures Less(a, b) || Less(b, a)
    decreases |a|
  {
    if a != [] && b != [] && a[0] == b[0] {
      assert a == [a[0]] + a[1..] && b == [b[0]] + b[1..];
      LessTotal(a[1..], b[1..]);
    }
  }

  lemma LessAsymmetric(a: string, b: string)
    requires Less(a, b)
    ensures !Less(b, a)
  {
    if Less(b, a) {
      LessTransitive(a, b, a);
      LessIrreflexive(a);
    }
  }

  /** Every entry is strictly before each later one. */
  predicate StrictlySorted(s: seq<string>) {
    forall i, j :: 0 <= i < j < |s| ==> Less(s[i], s[j])
  }

  /** No entry is after a later one (the order sort.Strings leaves). */
  predicate Ascending(s: seq<string>) {
    forall i, j :: 0 <= i < j < |s| ==> !Less(s[j], s[i])
  }

  /** No string occurs twice. */
  predicate Distinct(s: seq<string>) {
    forall i, j :: 0 <= i < j < |s| ==> s[i] != s[j]
  }

  /** No string occurs twice, counted in the multiset of entries (which a
      permutation keeps). */
  ghost predicate NoRepeats(s: seq<string>) {
    forall x :: multiset(s)[x] <= 1
  }

  lemma {:induction false} DistinctNoRepeats(s: seq<string>)
    requires Distinct(s)
    ensures NoRepeats(s)
  {
    if s != [] {
      var init := s[..|s| - 1];
      assert Distinct(init);
      DistinctNoRepeats(init);
      assert s == init + [s[|s| - 1]];
      assert s[|s| - 1] !in init;
      assert multiset(init)[s[|s| - 1]] == 0;
    }
  }

  lemma DistinctEntries(s: seq<string>, i: nat, j: nat)
    requires NoRepeats(s) && i < j < |s|
    ensures s[i] != s[j]
  {
    if s[i] == s[j] {
      CountTwo(s, i, j);
    }
  }

  lemma CountTwo(s: seq<string>, i: nat, j: nat)
    requires i < j < |s| && s[i] == s[j]
    ensures multiset(s)[s[i]] >= 2
  {
    assert s == s[..i] + [s[i]] + s[i + 1..j] + [s[j]] + s[j + 1..];
  }

  lemma AscendingDistinctIsStrict(s: seq<string>)
    requires Ascending(s) && NoRepeats(s)
    ensures StrictlySorted(s)
  {
    forall i, j | 0 <= i < j < |s|
      ensures Less(s[i], s[j])
    {
      DistinctEntries(s, i, j);
      LessTotal(s[i], s[j]);
    }
  }

  /* ---------------- the ascending enumeration of a key set ---------------- */

  lemma {:induction false} LeastExists(keys: set<string>)
    requires keys != {}
    ensures exists k :: k in keys && forall j :: j in keys && j != k ==> Less(k, j)
    decreases |keys|
  {
    var x :| x in keys;
    var rest := keys - {x};
    if rest == {} {
      assert keys == {x};
      assert forall j :: j in keys && j != x ==> Less(x, j);
    } else {
      LeastExists(rest);
      var y :| y in rest && forall j :: j in rest && j != y ==> Less(y, j);
      if Less(x, y) {
        forall j | j in keys && j != x
          ensures Less(x, j)
        {
          if j != y {
            LessTransitive(x, y, j);
          }
        }
      } else {
        LessTotal(x, y);
        assert forall j :: j in keys && j != y ==> Less(y, j);
      }
    }
  }

  /** The keys in ascending order, each once. */
  ghost function SortedKeys(keys: set<string>): (r: seq<string>)
    ensures StrictlySorted(r)
    ensures forall k :: k in r <==> k in keys
    decreases |keys|
  {
    if keys == {} then []
    else
      LeastExists(keys);
      var k :| k in keys && forall j :: j in keys && j != k ==> Less(k, j);
      var rest := SortedKeys(keys - {k});
      ConsSorted(k, rest);
      [k] + rest
  }

  lemma ConsSorted(k: string, rest: seq<string>)
    requires StrictlySorted(rest) && forall j :: j in rest ==> Less(k, j)
    ensures StrictlySorted([k] + rest)
  {
    var s := [k] + rest;
    forall i, j | 0 <= i < j < |s|
      ensures Less(s[i], s[j])
    {
      assert s[j] == rest[j - 1];
      if i > 0 {
        assert s[i] == rest[i - 1];
      }
    }
  }

  /** A set has only one strictly ascending enumeration. */
  lemma {:induction false} StrictlySortedUnique(a: seq<string>, b: seq<string>)
    requires StrictlySorted(a) && StrictlySorted(b)
    requires forall k :: k in a <==> k in b
    ensures a == b
    decreases |a|
  {
    if a == [] {
      HeadIsMember(b);
    } else {
      assert a[0] in a;
      assert b != [];
      assert b[0] in b;
      var i :| 0 <= i < |a| && a[i] == b[0];
      var j :| 0 <= j < |b| && b[j] == a[0];
      if i > 0 && j > 0 {
        LessAsymmetric(a[0], a[i]);
      }
      assert a[0] == b[0];
      assert a == [a[0]] + a[1..] && b == [b[0]] + b[1..];
      forall k
        ensures k in a[1..] <==> k in b[1..]
      {
        if k in a[1..] {
          var t :| 0 <= t < |a[1..]| && a[1..][t] == k;
          assert Less(a[0], a[t + 1]);
          LessIrreflexive(k);
          assert k in b && k != b[0];
        }
        if k in b[1..] {
          var t :| 0 <= t < |b[1..]| && b[1..][t] == k;
          assert Less(b[0], b[t + 1]);
          LessIrreflexive(k);
          assert k in a && k != a[0];
        }
      }
      StrictlySortedUnique(a[1..], b[1..]);
      assert a == [a[0]] + a[1..] && b == [b[0]] + b[1..];
    }
  }

  lemma HeadIsMember(b: seq<string>)
    ensures b == [] || b[0] in b
  {
  }

  /* ---------------- the string that is signed ---------------- */

  /** Each key of `keys`, in the given order, followed by its first value. */
  function Pairs(params: Values, keys: seq<string>): string {
    if keys == [] then []
    else Pairs(params, keys[..|keys| - 1]) + keys[|keys| - 1] + Get(params, keys[|keys| - 1])
  }

  /** The pre-hash string: every parameter in ascending key order as key + first
      value, then the secret. It depends on the map only, not on the order in which
      its keys were set or are enumerated. */
  ghost function PreHash(params: Values, apiSecret: string): string {
    Pairs(params, SortedKeys(params.Keys)) + apiSecret
  }

  /** Any strictly ascending listing of exactly the parameter names gives the
      pre-hash string. */
  lemma PreHashOfAscendingKeys(params: Values, keys: seq<string>, apiSecret: string)
    requires StrictlySorted(keys) && forall k :: k in keys <==> k in params
    ensures PreHash(params, apiSecret) == Pairs(params, keys) + apiSecret
  {
    StrictlySortedUnique(keys, SortedKeys(params.Keys));
  }

  /** The signature of a two-parameter request: "api_key" sorts before "method". */
  lemma PreHashExample(apiKey: string, apiSecret: string)
    ensures PreHash(map["method" := ["auth.gettoken"], "api_key" := [apiKey]], apiSecret)
            == "api_key" + apiKey + "method" + "auth.gettoken" + apiSecret
  {
    var params := map["method" := ["auth.gettoken"], "api_key" := [apiKey]];
    var keys := ["api_key", "method"];
    assert Less("api_key", "method");
    assert StrictlySorted(keys);
    PreHashOfAscendingKeys(params, keys, apiSecret);
    PairsOfTwo(params, "api_key", "method");
  }

  lemma PairsOfTwo(params: Values, a: string, b: string)
    ensures Pairs(params, [a, b]) == a + Get(params, a) + b + Get(params, b)
  {
    assert [a, b][..1] == [a] && [a][..0] == [];
    assert Pairs(params, []) == [];
    assert Pairs(params, [a]) == a + Get(params, a);
    assert Pairs(params, [a, b]) == Pairs(params, [a]) + b + Get(params, b);
  }

  /* ---------------- generateSignature ---------------- */

  /** sort.Strings, in place. */
  method SortStrings(a: array<string>)
    modifies a
    ensures Ascending(a[..])
    ensures multiset(a[..]) == old(multiset(a[..]))
  {
    var i := 0;
    while i < a.Length
      invariant 0 <= i <= a.Length
      invariant AscendingUpTo(a[..], i)
      invariant multiset(a[..]) == old(multiset(a[..]))
    {
      var m := LeastFrom(a, i);
      SwapExtendsAscending(a[..], i, m);
      a[i], a[m] := a[m], a[i];
      i := i + 1;
    }
  }

  /** The first `i` entries are ascending and none is after an entry that follows them. */
  ghost predicate AscendingUpTo(s: seq<string>, i: nat)
    requires i <= |s|
  {
    && (forall p, q :: 0 <= p < q < i ==> !Less(s[q], s[p]))
    && (forall p, q :: 0 <= p < i <= q < |s| ==> !Less(s[q], s[p]))
  }

  lemma SwapExtendsAscending(s: seq<string>, i: nat, m: nat)
    requires i <= m < |s| && AscendingUpTo(s, i)
    requires forall q :: i <= q < |s| ==> !Less(s[q], s[m])
    ensures AscendingUpTo(s[i := s[m]][m := s[i]], i + 1)
  {
    var t := s[i := s[m]][m := s[i]];
    forall p, q | 0 <= p < i + 1 <= q < |t|
      ensures !Less(t[q], t[p])
    {
      if p < i {
        assert t[p] == s[p];
      } else {
        assert t[p] == s[m];
      }
    }
  }

  /** The index of an entry at or after `i` that no entry of that suffix is before. */
  method LeastFrom(a: array<string>, i: nat) returns (m: nat)
    requires i < a.Length
    ensures i <= m < a.Length
    ensures forall q :: i <= q < a.Length ==> !Less(a[q], a[m])
  {
    m := i;
    var j := i + 1;
    LessIrreflexive(a[i]);
    while j < a.Length
      invariant i <= m < a.Length && i < j <= a.Length
      invariant forall q :: i <= q < j ==> !Less(a[q], a[m])
    {
      if Less(a[j], a[m]) {
        forall q | i <= q < j
          ensures !Less(a[q], a[j])
        {
          if Less(a[q], a[j]) {
            LessTransitive(a[q], a[j], a[m]);
          }
        }
        LessIrreflexive(a[j]);
        m := j;
      }
      j := j + 1;
    }
  }

  /** The keys of generateSignature (commands/lastfm/watch.go:64-70): collected in
      the order `keyOrder`, then sorted with sort.Strings. */
  method CollectSortedKeys(params: Values, keyOrder: seq<string>) returns (keys: array<string>)
    requires forall k :: k in keyOrder <==> k in params
    requires Distinct(keyOrder)
    ensures StrictlySorted(keys[..]) && forall k :: k in keys[..] <==> k in params
  {
    keys := new string[|keyOrder|];
    var n := 0;
    while n < |keyOrder|
      invariant 0 <= n <= |keyOrder|
      invariant keys[..n] == keyOrder[..n]
    {
      keys[n] := keyOrder[n];
      n := n + 1;
    }
    assert keys[..] == keyOrder;
    DistinctNoRepeats(keyOrder);
    SortStrings(keys);
    AscendingDistinctIsStrict(keys[..]);
    assert forall k :: k in keys[..] <==> k in multiset(keys[..]);
  }

  /** generateSignature (commands/lastfm/watch.go:61-83). `keyOrder` is the order in
      which `for key := range params` happens to visit the keys, each exactly once;
      the result does not depend on it. */
  method GenerateSignature(params: Values, keyOrder: seq<string>, apiSecret: string, digest: string -> string)
    returns (signature: string)
    requires forall k :: k in keyOrder <==> k in params
    requires Distinct(keyOrder)
    ensures signature == digest(PreHash(params, apiSecret))
  {
    var keys := CollectSortedKeys(params, keyOrder);
    signature := "";
    var i := 0;
    while i < keys.Length
      invariant 0 <= i <= keys.Length
      invariant signature == Pairs(params, keys[..i])
    {
      assert keys[..i + 1][..i] == keys[..i];
      signature := signature + keys[i] + Get(params, keys[i]);
      i := i + 1;
    }
    assert keys[..i] == keys[..];
    signature := signature + apiSecret;
    PreHashOfAscendingKeys(params, keys[..], apiSecret);
    signature := digest(signature);
  }

  /** Some order in which `for key := range params` visits the keys: each key once,
      which one first is not specified. */
  method MapKeys(params: Values) returns (keys: seq<string>)
    ensures forall k :: k in keys <==> k in params
    ensures Distinct(keys)
  {
    var rest := params.Keys;
    keys := [];
    while rest != {}
      invariant forall k :: k in params <==> k in keys || k in rest
      invariant forall k :: k in keys ==> k !in rest
      invariant Distinct(keys)
      decreases |rest|
    {
      var k :| k in rest;
      keys := keys + [k];
      rest := rest - {k};
    }
  }

  /* ---------------- signed requests ---------------- */

  /** The credentials the watcher reads from its credentials file. */
  datatype Credentials = Credentials(apiKey: string, apiSecret: string, sessionKey: string, username: string)

  /** Adding parameters the request did not have and then removing them again gives
      back the signed parameters. */
  lemma FormatAfterSigning(unsigned: Values, sig: string)
    requires "api_sig" !in unsigned && "format" !in unsigned
    ensures unsigned["api_sig" := [sig]]["format" := ["json"]] - {"api_sig", "format"} == unsigned
  {
  }

  /** Signing and then adding `format` leaves a signature over the other parameters. */
  lemma SignedThenFormat(unsigned: Values, sig: string, apiSecret: string, digest: string -> string)
    requires "api_sig" !in unsigned && "format" !in unsigned
    requires sig == digest(PreHash(unsigned, apiSecret))
    ensures var params := unsigned["api_sig" := [sig]]["format" := ["json"]];
            params["api_sig"] == [digest(PreHash(params - {"api_sig", "format"}, apiSecret))]
  {
    FormatAfterSigning(unsigned, sig);
  }

  lemma NothingAfterSigning(unsigned: Values, sig: string)
    requires "api_sig" !in unsigned
    ensures unsigned["api_sig" := [sig]] - {"api_sig"} == unsigned
  {
  }

  /** The parameters of a track.scrobble call before signing (commands/lastfm/watch.go:166-172). */
  function UnsignedScrobble(credentials: Credentials, artist: string, track: string, timestamp: int): Values {
    map["method" := ["track.scrobble"], "api_key" := [credentials.apiKey],
        "artist" := [artist], "track" := [track],
        "timestamp" := [IntToString(timestamp)], "sk" := [credentials.sessionKey]]
  }

  /** The keys of a scrobble, as the order `for key := range params` may visit them. */
  lemma ScrobbleKeys(credentials: Credentials, artist: string, track: string, timestamp: int, order: seq<string>)
    requires order == ["method", "api_key", "artist", "track", "timestamp", "sk"]
    ensures var unsigned := UnsignedScrobble(credentials, artist, track, timestamp);
            && (forall k :: k in order <==> k in unsigned) && Distinct(order)
            && "api_sig" !in unsigned && "format" !in unsigned
  {
  }

  /** The parameters of a track.scrobble call (commands/lastfm/watch.go:165-174):
      api_sig signs every other parameter except `format`, which is set after it. */
  method ScrobbleParams(credentials: Credentials, artist: string, track: string, timestamp: int,
                        digest: string -> string)
    returns (params: Values)
    ensures var unsigned := UnsignedScrobble(credentials, artist, track, timestamp);
            params == unsigned["api_sig" := [digest(PreHash(unsigned, credentials.apiSecret))]]["format" := ["json"]]
    ensures params["api_sig"] == [digest(PreHash(params - {"api_sig", "format"}, credentials.apiSecret))]
  {
    var unsigned := UnsignedScrobble(credentials, artist, track, timestamp);
    var order := ["method", "api_key", "artist", "track", "timestamp", "sk"];
    ScrobbleKeys(credentials, artist, track, timestamp, order);
    var sig := GenerateSignature(unsigned, order, credentials.apiSecret, digest);
    var signed := unsigned["api_sig" := [sig]];
    params := signed["format" := ["json"]];
    SignedThenFormat(unsigned, sig, credentials.apiSecret, digest);
  }

  /** The parameters of an auth.getSession call before signing (commands/lastfm/watch.go:126-128). */
  function UnsignedSession(apiKey: string, token: string): Values {
    map["method" := ["auth.getSession"], "api_key" := [apiKey], "token" := [token]]
  }

  lemma SessionKeys(apiKey: string, token: string, order: seq<string>)
    requires order == ["method", "api_key", "token"]
    ensures var unsigned := UnsignedSession(apiKey, token);
            && (forall k :: k in order <==> k in unsigned) && Distinct(order)
            && "api_sig" !in unsigned && "format" !in unsigned
  {
  }

  /** The parameters of an auth.getSession call (commands/lastfm/watch.go:124-131):
      here too `format` is set after signing. */
  method SessionParams(apiKey: string, apiSecret: string, token: string, digest: string -> string)
    returns (params: Values)
    ensures var unsigned := UnsignedSession(apiKey, token);
            params == unsigned["api_sig" := [digest(PreHash(unsigned, apiSecret))]]["format" := ["json"]]
    ensures params["api_sig"] == [digest(PreHash(params - {"api_sig", "format"}, apiSecret))]
  {
    var unsigned := UnsignedSession(apiKey, token);
    var order := ["method", "api_key", "token"];
    SessionKeys(apiKey, token, order);
    var sig := GenerateSignature(unsigned, order, apiSecret, digest);
    params := unsigned["api_sig" := [sig]]["format" := ["json"]];
    SignedThenFormat(unsigned, sig, apiSecret, digest);
  }

  /** The parameters of an auth.gettoken call before signing (commands/lastfm/watch.go:87-89). */
  function UnsignedAuthToken(apiKey: string): Values {
    map["method" := ["auth.gettoken"], "format" := ["json"], "api_key" := [apiKey]]
  }

  lemma AuthTokenKeys(apiKey: string, order: seq<string>)
    requires order == ["method", "format", "api_key"]
    ensures var unsigned := UnsignedAuthToken(apiKey);
            && (forall k :: k in order <==> k in unsigned) && Distinct(order)
            && "api_sig" !in unsigned && "format" in unsigned
  {
  }

  /** The parameters of an auth.gettoken call (commands/lastfm/watch.go:85-90): unlike
      the two calls above, `format` is set before signing and so is signed. */
  method AuthTokenParams(apiKey: string, apiSecret: string, digest: string -> string)
    returns (params: Values)
    ensures params == UnsignedAuthToken(apiKey)["api_sig" := [digest(PreHash(UnsignedAuthToken(apiKey), apiSecret))]]
    ensures "format" in params - {"api_sig"}
    ensures params["api_sig"] == [digest(PreHash(params - {"api_sig"}, apiSecret))]
  {
    var unsigned := UnsignedAuthToken(apiKey);
    var order := ["method", "format", "api_key"];
    AuthTokenKeys(apiKey, order);
    var sig := GenerateSignature(unsigned, order, apiSecret, digest);
    params := unsigned["api_sig" := [sig]];
    NothingAfterSigning(unsigned, sig);
  }
}
