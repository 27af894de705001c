/**
 * simpleconfig/simpleconfig.go: a key=value file behind a Config object that holds
 * the values, the file name and the set of allowed keys. The file is not opened:
 * NewConfig and ReadConfig receive what the filesystem would give, and WriteConfig
 * returns the text it would write.
 */
module SimpleConfig {
  import opened Wrappers
  import opened Text

  /** The key test of ReadConfig and Set: a nil allowed-key map (None) admits every
      key; NewConfig never leaves it nil. */
  predicate Allowed(allowedKeys: Option<set<string>>, key: string) {
    allowedKeys.None? || key in allowedKeys.value
  }

  function InvalidKey(key: string, fileName: string): string {
    "Invalid key: " + key + " in " + fileName
  }

  function InvalidLine(line: string, fileName: string): string {
    "Invalid line: " + line + " in " + fileName
  }

  /** A line that ReadConfig skips: empty, or a comment. */
  predicate Skipped(line: string) {
    line == "" || HasPrefix(line, "#")
  }

  /** One line of the file (simpleconfig/simpleconfig.go:60-80): the new values,
      or the values so far and an error. */
  function ApplyLine(values: map<string, string>, allowedKeys: Option<set<string>>, line: string, fileName: string)
    : (r: (map<string, string>, Option<string>))
    ensures r.1.None? ==> Skipped(line) || |Split(line, '=')| == 2
    ensures r.1.Some? ==> r.0 == values
    ensures Skipped(line) ==> r == (values, None)
    ensures !Skipped(line) && |Split(line, '=')| != 2 ==> r.1 == Some(InvalidLine(line, fileName))
  {
    if Skipped(line) then (values, None)
    else
      var parts := Split(line, '=');
      if |parts| == 2 then
        if !Allowed(allowedKeys, parts[0]) then (values, Some(InvalidKey(parts[0], fileName)))
        else (values[parts[0] := parts[1]], None)
      else (values, Some(InvalidLine(line, fileName)))
  }

  /** The scanner loop over `lines`: it stops at the first bad line, keeping the
      values read before it. */
  function ReadLines(values: map<string, string>, allowedKeys: Option<set<string>>, lines: seq<string>, fileName: string)
    : (map<string, string>, Option<string>)
    decreases |lines|
  {
    if lines == [] then (values, None)
    else
      var (v, e) := ApplyLine(values, allowedKeys, lines[0], fileName);
      if e.Some? then (v, e) else ReadLines(v, allowedKeys, lines[1..], fileName)
  }

  /** A line "key=value" with no other '=' splits into key and value. */
  lemma SplitPair(key: string, value: string)
    requires '=' !in key && '=' !in value
    ensures Split(key + "=" + value, '=') == [key, value]
  {
    SplitCons(key, '=', value);
    assert key + "=" + value == key + ['='] + value;
    SplitNoSeparator(value, '=');
  }

  /** A value that holds '=' makes the line invalid: it splits into three or more
      parts. */
  lemma ValueWithEqualsRejected(values: map<string, string>, allowedKeys: Option<set<string>>, key: string, value: string, fileName: string)
    requires '=' !in key && '=' in value
    requires !HasPrefix(key + "=" + value, "#")
    ensures var line := key + "=" + value;
            ApplyLine(values, allowedKeys, line, fileName) == (values, Some(InvalidLine(line, fileName)))
  {
    SplitThree(key, value);
  }

  /** A line "key=value" whose value holds '=' splits into three parts or more. */
  lemma SplitThree(key: string, value: string)
    requires '=' !in key && '=' in value
    ensures |Split(key + "=" + value, '=')| >= 3
  {
    SplitCons(key, '=', value);
    assert key + "=" + value == key + ['='] + value;
    SplitSeparated(value, '=');
  }

  /** A key outside the allowed set is an error; a key inside it is stored. */
  lemma KeyChecked(values: map<string, string>, allowedKeys: Option<set<string>>, key: string, value: string, fileName: string)
    requires '=' !in key && '=' !in value
    requires !HasPrefix(key + "=" + value, "#")
    ensures var r := ApplyLine(values, allowedKeys, key + "=" + value, fileName);
            if Allowed(allowedKeys, key) then r == (values[key := value], None)
            else r == (values, Some(InvalidKey(key, fileName)))
  {
    SplitPair(key, value);
  }

  /** Of two lines with the same key, the later value is kept. */
  lemma LaterDuplicateWins(values: map<string, string>, allowedKeys: Option<set<string>>, key: string, first: string, second: string, fileName: string)
    requires '=' !in key && '=' !in first && '=' !in second
    requires !HasPrefix(key + "=" + first, "#") && !HasPrefix(key + "=" + second, "#")
    requires Allowed(allowedKeys, key)
    ensures ReadLines(values, allowedKeys, [key + "=" + first, key + "=" + second], fileName) == (values[key := second], None)
  {
    var lines := [key + "=" + first, key + "=" + second];
    KeyChecked(values, allowedKeys, key, first, fileName);
    KeyChecked(values[key := first], allowedKeys, key, second, fileName);
    assert lines[1..] == [key + "=" + second] && lines[1..][1..] == [];
    assert ReadLines(values[key := first][key := second], allowedKeys, [], fileName) == (values[key := first][key := second], None);
    assert ReadLines(values[key := first], allowedKeys, lines[1..], fileName) == (values[key := first][key := second], None);
    assert values[key := first][key := second] == values[key := second];
  }

  /** With an empty allowed set every key is refused. */
  lemma EmptyAllowedRejectsAll(values: map<string, string>, line: string, fileName: string)
    requires !Skipped(line)
    ensures ApplyLine(values, Some({}), line, fileName).1.Some?
  {
  }

  /* ---------------- writing ---------------- */

  /** The text WriteConfig writes for the keys in `order`: "key=value\n" each. */
  function Serialize(values: map<string, string>, order: seq<string>): string
    requires forall k :: k in order ==> k in values
  {
    if order == [] then ""
    else order[0] + "=" + values[order[0]] + "\n" + Serialize(values, order[1..])
  }

  /** A key and a value that survive the file format. */
  predicate Writable(key: string, value: string) {
    && '=' !in key && '\n' !in key && !HasPrefix(key, "#")
    && '=' !in value && '\n' !in value && (value == "" || value[|value| - 1] != '\r')
  }

  /** Reading written text over `acc` stores every written key with its value and
      keeps the rest of `acc`. */
  lemma {:induction false} ReadWritten(acc: map<string, string>, allowedKeys: Option<set<string>>, values: map<string, string>, order: seq<string>, fileName: string)
    requires forall k :: k in order ==> k in values && Allowed(allowedKeys, k) && Writable(k, values[k])
    ensures var r := ReadLines(acc, allowedKeys, Lines(Serialize(values, order)), fileName);
            && r.1 == None
            && (forall k :: k in r.0 <==> k in acc || k in order)
            && (forall k :: k in r.0 ==> r.0[k] == if k in order then values[k] else acc[k])
    decreases |order|
  {
    if order != [] {
      var k := order[0];
      var v := values[k];
      var rest := Serialize(values, order[1..]);
      assert Serialize(values, order) == k + "=" + v + "\n" + rest;
      ReadWrittenLine(acc, allowedKeys, k, v, rest, fileName);
      ReadWritten(acc[k := v], allowedKeys, values, order[1..], fileName);
    } else {
      assert Lines("") == [];
    }
  }

  /** A written line stores its key and value, and reading goes on after it. */
  lemma ReadWrittenLine(acc: map<string, string>, allowedKeys: Option<set<string>>, k: string, v: string, rest: string, fileName: string)
    requires Allowed(allowedKeys, k) && Writable(k, v)
    ensures ReadLines(acc, allowedKeys, Lines(k + "=" + v + "\n" + rest), fileName)
            == ReadLines(acc[k := v], allowedKeys, Lines(rest), fileName)
  {
    var line := k + "=" + v;
    assert '\n' !in line;
    LinesCons(line, rest);
    assert line != "" && line[|line| - 1] != '\r';
    assert DropCR(line) == line;
    assert line[0] == (if k == "" then '=' else k[0]);
    KeyChecked(acc, allowedKeys, k, v, fileName);
    var lines := Lines(line + "\n" + rest);
    assert lines[0] == line && lines[1..] == Lines(rest);
  }

  /** WriteConfig then ReadConfig into a fresh Config gives back the same values
      when every key is allowed and no key or value holds '=' or '\n', no key
      starts with '#' and no value ends with '\r'. */
  lemma RoundTrip(values: map<string, string>, allowedKeys: Option<set<string>>, order: seq<string>, fileName: string)
    requires forall k :: k in order <==> k in values
    requires forall k :: k in values ==> Allowed(allowedKeys, k) && Writable(k, values[k])
    ensures ReadLines(map[], allowedKeys, Lines(Serialize(values, order)), fileName) == (values, None)
  {
    ReadWritten(map[], allowedKeys, values, order, fileName);
    var r := ReadLines(map[], allowedKeys, Lines(Serialize(values, order)), fileName);
    assert r.0.Keys == values.Keys;
    assert r.0 == values;
  }

  /* ---------------- the Config object ---------------- */

  /** What the filesystem holds under the config's name: no file (and the error of
      creating it, if any), a stat failure, or a file that opens (or not). */
  datatype FileState = Absent(createError: Option<string>) | StatFailed(message: string) | Present(content: Result<string, string>)

  class Config {
    var values: map<string, string>
    var fileName: string
    var allowedKeys: Option<set<string>>

    /** The zero Config of Go: no values, no name and a nil allowed-key map. */
    constructor ()
      ensures values == map[] && fileName == "" && allowedKeys == None
    {
      values := map[];
      fileName := "";
      allowedKeys := None;
    }

    /** ReadConfig (simpleconfig/simpleconfig.go:48-88); `file` is the file's text
        or the error of opening it. */
    method ReadConfig(file: Result<string, string>) returns (err: Option<string>)
      modifies this
      ensures fileName == old(fileName) && allowedKeys == old(allowedKeys)
      ensures file.Err? ==> err == Some(file.error) && values == old(values)
      ensures file.Ok? ==> (values, err) == ReadLines(old(values), allowedKeys, Lines(file.value), fileName)
    {
      if file.Err? {
        return Some(file.error);
      }
      var lines := Lines(file.value);
      var i := 0;
      while i < |lines|
        invariant 0 <= i <= |lines|
        invariant fileName == old(fileName) && allowedKeys == old(allowedKeys)
        invariant ReadLines(old(values), allowedKeys, lines, fileName) == ReadLines(values, allowedKeys, lines[i..], fileName)
      {
        var line := lines[i];
        assert lines[i..][1..] == lines[i + 1..];
        if line == "" || HasPrefix(line, "#") {
          i := i + 1;
          continue;
        }
        var parts := Split(line, '=');
        if |parts| == 2 {
          var key := parts[0];
          if allowedKeys.Some? && key !in allowedKeys.value {
            return Some(InvalidKey(key, fileName));
          }
          values := values[key := parts[1]];
        } else {
          return Some(InvalidLine(line, fileName));
        }
        i := i + 1;
      }
      return None;
    }

    /** Get (simpleconfig/simpleconfig.go:114-117). */
    function Get(key: string): (r: (string, bool))
      reads this
      ensures r.1 <==> key in values
      ensures r.1 ==> r.0 == values[key]
      ensures !r.1 ==> r.0 == ""
    {
      if key in values then (values[key], true) else ("", false)
    }

    /** Set (simpleconfig/simpleconfig.go:119-128). */
    method Set(key: string, value: string) returns (err: Option<string>)
      modifies this
      ensures fileName == old(fileName) && allowedKeys == old(allowedKeys)
      ensures !Allowed(allowedKeys, key) ==> err == Some(InvalidKey(key, fileName)) && values == old(values)
      ensures Allowed(allowedKeys, key) ==> err.None? && values == old(values)[key := value]
      ensures err.None? ==> Get(key) == (value, true)
      ensures forall k :: k != key ==> Get(k) == old(Get(k))
    {
      if allowedKeys.Some? && key !in allowedKeys.value {
        return Some(InvalidKey(key, fileName));
      }
      values := values[key := value];
      return None;
    }

    /** WriteConfig (simpleconfig/simpleconfig.go:90-112): the keys in Go's map
        order, which is unspecified and returned here as `order`, and the text
        written, or the error of opening the file and nothing written. */
    method WriteConfig(openError: Option<string>) returns (order: seq<string>, written: string, err: Option<string>)
      ensures err == openError
      ensures openError.Some? ==> written == ""
      ensures openError.None? ==> (forall k :: k in order <==> k in values) && |order| == |values|
      ensures openError.None? ==> written == Serialize(values, order)
    {
      if openError.Some? {
        return [], "", openError;
      }
      var rest := values.Keys;
      order := [];
      written := "";
      while rest != {}
        invariant forall k :: k in values <==> k in order || k in rest
        invariant forall k :: k in order ==> k !in rest
        invariant rest <= values.Keys
        invariant |order| + |rest| == |values|
        invariant written == Serialize(values, order)
        decreases |rest|
      {
        var key :| key in rest;
        SerializeAppend(values, order, key);
        written := written + (key + "=" + values[key] + "\n");
        order := order + [key];
        rest := rest - {key};
      }
      err := None;
    }
  }

  lemma {:induction false} SerializeAppend(values: map<string, string>, order: seq<string>, key: string)
    requires forall k :: k in order ==> k in values
    requires key in values
    ensures Serialize(values, order + [key]) == Serialize(values, order) + (key + "=" + values[key] + "\n")
  {
    if order != [] {
      assert (order + [key])[1..] == order[1..] + [key];
      SerializeAppend(values, order[1..], key);
    } else {
      assert [key][1..] == [];
    }
  }

  /** NewConfig (simpleconfig/simpleconfig.go:18-46): the allowed-key set is always
      built, and the file is created when absent and then read. */
  method NewConfig(fileName: string, allowedKeys: seq<string>, file: FileState) returns (cfg: Config, err: Option<string>)
    ensures fresh(cfg)
    ensures cfg.fileName == fileName
    ensures cfg.allowedKeys == Some(set k | k in allowedKeys)
    ensures file.StatFailed? ==> err == Some("Error with stating config file: " + file.message) && cfg.values == map[]
    ensures file.Absent? && file.createError.Some? ==> err == Some("Error with creating config file: " + file.createError.value) && cfg.values == map[]
    ensures file.Absent? && file.createError.None? ==> err.None? && cfg.values == map[]
    ensures file.Present? && file.content.Err? ==> err == Some(file.content.error) && cfg.values == map[]
    ensures file.Present? && file.content.Ok? ==>
              (cfg.values, err) == ReadLines(map[], cfg.allowedKeys, Lines(file.content.value), fileName)
  {
    var keySet: set<string> := {};
    var i := 0;
    while i < |allowedKeys|
      invariant 0 <= i <= |allowedKeys|
      invariant keySet == set k | k in allowedKeys[..i]
    {
      assert allowedKeys[..i + 1] == allowedKeys[..i] + [allowedKeys[i]];
      keySet := keySet + {allowedKeys[i]};
      i := i + 1;
    }
    assert allowedKeys[..i] == allowedKeys;
    cfg := new Config();
    cfg.fileName := fileName;
    cfg.allowedKeys := Some(keySet);
    match file
    case StatFailed(message) =>
      err := Some("Error with stating config file: " + message);
    case Absent(createError) =>
      if createError.Some? {
        err := Some("Error with creating config file: " + createError.value);
      } else {
        // reading the new, empty file
        err := cfg.ReadConfig(Ok(""));
        assert Lines("") == [];
      }
    case Present(content) =>
      err := cfg.ReadConfig(content);
  }
}
