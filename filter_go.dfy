/**
 * The song query filter of the Go player, commands/play/does-song-pass.go. A query
 * is a list of `#`-separated required sections, each a list of `,`-separated
 * alternatives; a leading `!` makes the query an exclusion. Terms are matched
 * against the song's path below the music directory, tags against the saved tags
 * that list the song.
 */
module PlayFilter {
  import opened Text
  import ArrayUtils

  /** A saved tag as the player reads it (commands/play/tags.go:12-15). */
  datatype Tag = Tag(name: string, songs: seq<string>)

  /** The two validators doesSongPass hands to validateQuery, by what they close
      over: a term matches a word the path contains, a tag word matches when a
      saved tag whose name contains it lists the path. */
  datatype Validator = ContainedIn(path: string) | TaggedWith(savedTags: seq<Tag>, path: string)

  predicate Accepts(v: Validator, word: string) {
    match v
    case ContainedIn(path) => Contains(path, word)
    case TaggedWith(savedTags, path) => exists t :: t in savedTags && Contains(t.name, word) && path in t.songs
  }

  /** The text validateQuery splits: lower-cased, one leading '!' removed. */
  function QueryText(query: string): string {
    TrimPrefix(Lower(query), "!")
  }

  /** validateQuery (commands/play/does-song-pass.go:56-65): every required section
      has an alternative the validator accepts. */
  predicate ValidateQuery(query: string, v: Validator) {
    var sections := Split(QueryText(query), '#');
    forall i :: 0 <= i < |sections| ==> exists w :: w in Split(sections[i], ',') && Accepts(v, w)
  }

  predicate IsExclusion(query: string) {
    HasPrefix(query, "!")
  }

  /** The song's path with the first occurrence of the lower-cased music directory
      and a slash removed (commands/play/does-song-pass.go:13). */
  function BarePath(songPath: string, musicPath: string): string {
    ReplaceFirst(songPath, Lower(musicPath) + "/", "")
  }

  /** Some query of `queries` is accepted by `v`. */
  predicate MatchedBy(queries: seq<string>, v: Validator) {
    exists j :: 0 <= j < |queries| && ValidateQuery(queries[j], v)
  }

  /** Some exclusion of `queries` is accepted by `v`. */
  predicate ExcludedBy(queries: seq<string>, v: Validator) {
    exists j :: 0 <= j < |queries| && IsExclusion(queries[j]) && ValidateQuery(queries[j], v)
  }

  predicate AllExclusions(queries: seq<string>) {
    forall j :: 0 <= j < |queries| ==> IsExclusion(queries[j])
  }

  /** What doesSongPass decides: false when a matching query is an exclusion;
      otherwise the term requirement (no terms, a term matched, or every term is an
      exclusion) and the tag requirement (no tags, or a tag matched). */
  predicate Passes(tags: seq<string>, savedTags: seq<Tag>, terms: seq<string>, songPath: string, musicPath: string) {
    if terms == [] && tags == [] then true
    else
      var path := BarePath(songPath, musicPath);
      if ExcludedBy(terms, ContainedIn(path)) || ExcludedBy(tags, TaggedWith(savedTags, path)) then false
      else
        && (terms == [] || MatchedBy(terms, ContainedIn(path)) || AllExclusions(terms))
        && (tags == [] || MatchedBy(tags, TaggedWith(savedTags, path)))
  }

  /** The loop doesSongPass runs over the terms and again over the tags
      (commands/play/does-song-pass.go:18-43): an accepted exclusion ends it with a
      rejection; otherwise it reports whether some query was accepted. */
  method CheckQueries(queries: seq<string>, v: Validator) returns (rejected: bool, matched: bool)
    ensures rejected <==> ExcludedBy(queries, v)
    ensures !rejected ==> (matched <==> MatchedBy(queries, v))
  {
    matched := false;
    var i := 0;
    while i < |queries|
      invariant 0 <= i <= |queries|
      invariant forall j :: 0 <= j < i ==> !(IsExclusion(queries[j]) && ValidateQuery(queries[j], v))
      invariant matched <==> exists j :: 0 <= j < i && ValidateQuery(queries[j], v)
    {
      var query := queries[i];
      if ValidateQuery(query, v) {
        if HasPrefix(query, "!") {
          return true, matched;
        }
        matched := true;
      }
      i := i + 1;
    }
    return false, matched;
  }

  /** doesSongPass (commands/play/does-song-pass.go:5-54); `tags` is args.tags and
      `musicPath` args.musicPath. */
  method DoesSongPass(tags: seq<string>, savedTags: seq<Tag>, terms: seq<string>, songPath: string, musicPath: string)
    returns (r: bool)
    ensures r == Passes(tags, savedTags, terms, songPath, musicPath)
  {
    if |terms| == 0 && |tags| == 0 {
      return true;
    }
    var path := ReplaceFirst(songPath, Lower(musicPath) + "/", "");
    var rejected, matched := CheckQueries(terms, ContainedIn(path));
    if rejected {
      return false;
    }
    var passedOneTerm := |terms| == 0 || matched;
    rejected, matched := CheckQueries(tags, TaggedWith(savedTags, path));
    if rejected {
      return false;
    }
    var passedTagRequirement := |tags| == 0 || matched;
    var allExclusions := ArrayUtils.Every(terms, (term: string) => HasPrefix(term, "!"));
    if !passedOneTerm && allExclusions {
      passedOneTerm := true;
    }
    return passedOneTerm && passedTagRequirement;
  }

  /* ---------------- properties ---------------- */

  /** Lower-casing neither adds nor removes a character that is not a letter. */
  lemma LowerKeepsSymbol(s: string, c: char)
    requires !('A' <= c <= 'Z') && !('a' <= c <= 'z')
    ensures c in Lower(s) <==> c in s
  {
    if c in s {
      var i :| 0 <= i < |s| && s[i] == c;
      assert Lower(s)[i] == c;
    }
    if c in Lower(s) {
      var i :| 0 <= i < |s| && Lower(s)[i] == c;
      assert s[i] == c;
    }
  }

  /** A query without '#' and ',' is one word, accepted exactly when the validator
      accepts it lower-cased and without its '!'. */
  lemma SingleWordQuery(query: string, v: Validator)
    requires '#' !in query && ',' !in query
    ensures ValidateQuery(query, v) <==> Accepts(v, QueryText(query))
  {
    var q := QueryText(query);
    LowerKeepsSymbol(query, '#');
    LowerKeepsSymbol(query, ',');
    assert forall c :: c in q ==> c in Lower(query);
    assert '#' !in q && ',' !in q;
    SplitNoSeparator(q, '#');
    SplitNoSeparator(q, ',');
    var sections := Split(QueryText(query), '#');
    assert sections == [q];
    if Accepts(v, q) {
      assert q in Split(sections[0], ',') && Accepts(v, q);
    }
    if ValidateQuery(query, v) {
      var w :| w in Split(sections[0], ',') && Accepts(v, w);
      assert w == q;
    }
  }

  /** An empty alternative, as in "rock,", matches every path. */
  lemma TrailingCommaMatchesAll(word: string, path: string)
    requires '#' !in word && ',' !in word
    ensures ValidateQuery(word + ",", ContainedIn(path))
  {
    QueryTextComma(word);
    var x := QueryText(word);
    CommaSplits(x);
    ContainsEmpty(path);
    var sections := Split(QueryText(word + ","), '#');
    assert sections == [x + ","];
    assert "" in Split(sections[0], ',') && Accepts(ContainedIn(path), "");
  }

  /** The query text of a word with a comma after it is the word's own, then the comma. */
  lemma QueryTextComma(word: string)
    requires '#' !in word && ',' !in word
    ensures QueryText(word + ",") == QueryText(word) + ","
    ensures '#' !in QueryText(word) && ',' !in QueryText(word)
  {
    var lw := Lower(word);
    LowerKeepsSymbol(word, '#');
    LowerKeepsSymbol(word, ',');
    assert Lower(word + ",") == lw + ",";
    if HasPrefix(lw, "!") {
      assert HasPrefix(lw + ",", "!");
      assert (lw + ",")[1..] == lw[1..] + ",";
    } else {
      var t := lw + ",";
      assert t[..1] == [t[0]];
      assert t[0] == if lw == "" then ',' else lw[0];
      assert lw != "" ==> lw[..1] == [lw[0]];
      assert !HasPrefix(t, "!");
    }
    assert forall c :: c in QueryText(word) ==> c in lw;
  }

  /** Text without '#' or ',' and a comma after it: one section, whose last
      alternative is empty. */
  lemma CommaSplits(x: string)
    requires '#' !in x && ',' !in x
    ensures Split(x + ",", '#') == [x + ","]
    ensures "" in Split(x + ",", ',')
  {
    SplitNoSeparator(x + ",", '#');
    SplitCons(x, ',', "");
    assert x + "," == x + [','] + "";
    assert Split("", ',') == [""];
  }

  /** A song under the music directory is matched by its path below it. */
  lemma BarePathUnderMusic(musicPath: string, rest: string)
    ensures BarePath(Lower(musicPath) + "/" + rest, musicPath) == rest
  {
    var dir := Lower(musicPath) + "/";
    var s := dir + rest;
    assert s == Lower(musicPath) + "/" + rest;
    assert HasPrefix(s, dir);
    PrefixContained(s, dir);
    assert s[|dir|..] == rest;
  }

  /** Only the first occurrence of the directory is removed. */
  lemma BarePathFirstOnly(musicPath: string, rest: string)
    ensures var dir := Lower(musicPath) + "/";
            BarePath(dir + dir + rest, musicPath) == dir + rest
  {
    var dir := Lower(musicPath) + "/";
    BarePathUnderMusic(musicPath, dir + rest);
    assert Lower(musicPath) + "/" + (dir + rest) == dir + dir + rest;
  }

  /** When every term is an exclusion and none matches, the terms pass the song;
      a matching exclusion rejects it whatever else matches. */
  lemma ExclusionRules(tags: seq<string>, savedTags: seq<Tag>, terms: seq<string>, songPath: string, musicPath: string)
    ensures var path := BarePath(songPath, musicPath);
            (exists j :: 0 <= j < |terms| && IsExclusion(terms[j]) && ValidateQuery(terms[j], ContainedIn(path)))
            ==> !Passes(tags, savedTags, terms, songPath, musicPath)
    ensures var path := BarePath(songPath, musicPath);
            terms != [] && tags == [] && (forall j :: 0 <= j < |terms| ==> IsExclusion(terms[j]) && !ValidateQuery(terms[j], ContainedIn(path)))
            ==> Passes(tags, savedTags, terms, songPath, musicPath)
  {
  }

  /** No terms and no tags pass every path; otherwise both requirements must hold. */
  lemma PassesIsConjunction(tags: seq<string>, savedTags: seq<Tag>, terms: seq<string>, songPath: string, musicPath: string)
    ensures terms == [] && tags == [] ==> Passes(tags, savedTags, terms, songPath, musicPath)
    ensures var path := BarePath(songPath, musicPath);
            Passes(tags, savedTags, terms, songPath, musicPath) && tags != [] ==>
              exists j :: 0 <= j < |tags| && !IsExclusion(tags[j]) && ValidateQuery(tags[j], TaggedWith(savedTags, path))
  {
  }
}
