/**
 * The song query filter of the TypeScript player, src/does-song-pass.ts. Each term
 * is lower-cased and loses one leading '!' (which makes it an exclusion); it then
 * matches a path when every section of the split on `#\s*` has an alternative of
 * the split on `,\s*` that the path contains. The path itself is used as given.
 * The section test is shared with the inline copy in src/main.ts and with
 * src/main.rs, which differ only in their space class and their final rule.
 */
module SongFilter {
  import opened Text
  import ArrayUtils

  /** The term as the loop matches it: lower-cased, then one leading '!' dropped. */
  function Stripped(term: string): string {
    var t := Lower(term);
    if HasPrefix(t, "!") then t[1..] else t
  }

  /** `term.startsWith('!')` after lower-casing. */
  predicate IsExclusion(term: string) {
    HasPrefix(Lower(term), "!")
  }

  /** Every section of `term` (split on '#' and the spaces after it) has an
      alternative (split on ',' and the spaces after it) that `path` contains. */
  predicate SectionsMatch(term: string, path: string, space: char -> bool) {
    var sections := SplitTrimmingAfter(term, '#', space);
    forall i :: 0 <= i < |sections| ==>
      exists w :: w in SplitTrimmingAfter(sections[i], ',', space) && Contains(path, w)
  }

  predicate Matched(terms: seq<string>, path: string, space: char -> bool) {
    exists j :: 0 <= j < |terms| && SectionsMatch(Stripped(terms[j]), path, space)
  }

  predicate Excluded(terms: seq<string>, path: string, space: char -> bool) {
    exists j :: 0 <= j < |terms| && IsExclusion(terms[j]) && SectionsMatch(Stripped(terms[j]), path, space)
  }

  /** Some of the first `i` terms matches; the loop's running `passedOneTerm`. */
  predicate MatchedBefore(terms: seq<string>, i: nat, path: string, space: char -> bool)
    requires i <= |terms|
  {
    i > 0 && (MatchedBefore(terms, i - 1, path, space) || SectionsMatch(Stripped(terms[i - 1]), path, space))
  }

  /** Some exclusion among the first `i` terms matches. */
  predicate ExcludedBefore(terms: seq<string>, i: nat, path: string, space: char -> bool)
    requires i <= |terms|
  {
    i > 0 && (ExcludedBefore(terms, i - 1, path, space)
              || (IsExclusion(terms[i - 1]) && SectionsMatch(Stripped(terms[i - 1]), path, space)))
  }

  /** The running flags say whether some of the first `i` terms matches, and
      whether some matching one among them is an exclusion. */
  lemma BeforeAll(terms: seq<string>, i: nat, path: string, space: char -> bool)
    requires i <= |terms|
    ensures MatchedBefore(terms, i, path, space) <==> exists j :: 0 <= j < i && SectionsMatch(Stripped(terms[j]), path, space)
    ensures ExcludedBefore(terms, i, path, space) <==>
              exists j :: 0 <= j < i && IsExclusion(terms[j]) && SectionsMatch(Stripped(terms[j]), path, space)
  {
    MatchedBeforeAll(terms, i, path, space);
    ExcludedBeforeAll(terms, i, path, space);
  }

  lemma {:induction false} MatchedBeforeAll(terms: seq<string>, i: nat, path: string, space: char -> bool)
    requires i <= |terms|
    ensures MatchedBefore(terms, i, path, space) <==> exists j :: 0 <= j < i && SectionsMatch(Stripped(terms[j]), path, space)
  {
    if i > 0 {
      MatchedBeforeAll(terms, i - 1, path, space);
      if SectionsMatch(Stripped(terms[i - 1]), path, space) {
        assert 0 <= i - 1 < i;
      } else if exists j :: 0 <= j < i && SectionsMatch(Stripped(terms[j]), path, space) {
        var j :| 0 <= j < i && SectionsMatch(Stripped(terms[j]), path, space);
        assert j < i - 1;
      }
    }
  }

  lemma {:induction false} ExcludedBeforeAll(terms: seq<string>, i: nat, path: string, space: char -> bool)
    requires i <= |terms|
    ensures ExcludedBefore(terms, i, path, space) <==>
              exists j :: 0 <= j < i && IsExclusion(terms[j]) && SectionsMatch(Stripped(terms[j]), path, space)
  {
    if i > 0 {
      ExcludedBeforeAll(terms, i - 1, path, space);
      if IsExclusion(terms[i - 1]) && SectionsMatch(Stripped(terms[i - 1]), path, space) {
        assert 0 <= i - 1 < i;
      } else if exists j :: 0 <= j < i && IsExclusion(terms[j]) && SectionsMatch(Stripped(terms[j]), path, space) {
        var j :| 0 <= j < i && IsExclusion(terms[j]) && SectionsMatch(Stripped(terms[j]), path, space);
        assert j < i - 1;
      }
    }
  }

  /** One more term: the flags take in whether it matches and is an exclusion. */
  lemma BeforeStep(terms: seq<string>, i: nat, path: string, space: char -> bool, isExclusion: bool, matched: bool)
    requires i < |terms|
    requires isExclusion == IsExclusion(terms[i]) && matched == SectionsMatch(Stripped(terms[i]), path, space)
    ensures MatchedBefore(terms, i + 1, path, space) == (MatchedBefore(terms, i, path, space) || matched)
    ensures ExcludedBefore(terms, i + 1, path, space) == (ExcludedBefore(terms, i, path, space) || (isExclusion && matched))
  {
  }

  /** The test of one term (src/does-song-pass.ts:9-23): whether it is an exclusion,
      and whether each of its sections has an alternative the path holds. */
  method MatchTerm(term: string, path: string, space: char -> bool) returns (isExclusion: bool, matched: bool)
    ensures isExclusion == IsExclusion(term)
    ensures matched == SectionsMatch(Stripped(term), path, space)
  {
    var t := Lower(term);
    isExclusion := HasPrefix(t, "!");
    if isExclusion {
      t := t[1..];
    }
    matched := SectionsMatch(t, path, space);
  }

  /** Once every term is seen, the running flags are Excluded and Matched. */
  lemma FlagsAtEnd(terms: seq<string>, path: string, space: char -> bool)
    ensures Excluded(terms, path, space) == ExcludedBefore(terms, |terms|, path, space)
    ensures Matched(terms, path, space) == MatchedBefore(terms, |terms|, path, space)
  {
    BeforeAll(terms, |terms|, path, space);
  }

  /** A matching exclusion among the first terms matches among all of them. */
  lemma ExcludedEarly(terms: seq<string>, i: nat, path: string, space: char -> bool)
    requires i <= |terms| && ExcludedBefore(terms, i, path, space)
    ensures Excluded(terms, path, space)
  {
    BeforeAll(terms, i, path, space);
  }

  /** `terms.every((t) => t.startsWith('!'))`, on the terms as given. */
  predicate AllExclusions(terms: seq<string>) {
    forall j :: 0 <= j < |terms| ==> HasPrefix(terms[j], "!")
  }

  /** What doesSongPass decides: no terms pass everything; a matching exclusion
      rejects; only exclusions, none matching, pass; otherwise some term must match. */
  predicate Passes(terms: seq<string>, songPath: string) {
    if terms == [] then true
    else if Excluded(terms, songPath, IsJsSpace) then false
    else if AllExclusions(terms) then true
    else Matched(terms, songPath, IsJsSpace)
  }

  /** The rule of the later revisions (src/main.ts, src/main.rs), which have no
      all-exclusions exception: no terms pass everything; otherwise some term must
      match and no matching term may be an exclusion. */
  predicate PassesByMatch(terms: seq<string>, path: string, space: char -> bool) {
    terms == [] || (!Excluded(terms, path, space) && Matched(terms, path, space))
  }

  /** Under that rule a non-empty list of only exclusions never passes: a term that
      matches is an exclusion and rejects the song, and without a match nothing
      passes. */
  lemma OnlyExclusionsNeverPass(terms: seq<string>, path: string, space: char -> bool)
    requires terms != [] && AllExclusions(terms)
    ensures !PassesByMatch(terms, path, space)
  {
    if Matched(terms, path, space) {
      var j :| 0 <= j < |terms| && SectionsMatch(Stripped(terms[j]), path, space);
      ExclusionOfLowered(terms[j]);
      assert IsExclusion(terms[j]);
    }
  }

  /** doesSongPass (src/does-song-pass.ts:1-37). */
  method DoesSongPass(terms: seq<string>, songPath: string) returns (r: bool)
    ensures r == Passes(terms, songPath)
  {
    if |terms| == 0 {
      return true;
    }
    var passedOneTerm := false;
    var i := 0;
    while i < |terms|
      invariant 0 <= i <= |terms|
      invariant !ExcludedBefore(terms, i, songPath, IsJsSpace)
      invariant passedOneTerm == MatchedBefore(terms, i, songPath, IsJsSpace)
    {
      var isExclusion, matched := MatchTerm(terms[i], songPath, IsJsSpace);
      BeforeStep(terms, i, songPath, IsJsSpace, isExclusion, matched);
      if matched {
        if isExclusion {
          ExcludedEarly(terms, i + 1, songPath, IsJsSpace);
          return false;
        }
        passedOneTerm := true;
      }
      i := i + 1;
    }
    FlagsAtEnd(terms, songPath, IsJsSpace);
    var onlyExclusions := ArrayUtils.Every(terms, (t: string) => HasPrefix(t, "!"));
    if onlyExclusions {
      return true;
    }
    return passedOneTerm;
  }

  /* ---------------- properties ---------------- */

  /** '!' is not a letter, so lower-casing keeps it where it was. */
  lemma ExclusionOfLowered(term: string)
    ensures IsExclusion(term) <==> HasPrefix(term, "!")
  {
    if term != [] {
      assert Lower(term)[..1] == [LowerChar(term[0])];
      assert term[..1] == [term[0]];
    }
  }

  /** A term with no '#' and no ',' is a single alternative. */
  lemma {:induction false} SingleWordMatches(word: string, path: string, space: char -> bool)
    requires '#' !in word && ',' !in word
    ensures SectionsMatch(word, path, space) <==> Contains(path, word)
  {
    SplitNoSeparator(word, '#');
    SplitNoSeparator(word, ',');
    var sections := SplitTrimmingAfter(word, '#', space);
    assert sections == [word];
    assert SplitTrimmingAfter(sections[0], ',', space) == [word];
    if Contains(path, word) {
      assert word in SplitTrimmingAfter(sections[0], ',', space);
    }
  }

  /** One plain term decides alone: an ordinary term passes the paths that contain it
      lower-cased, an exclusion the paths that do not. The path is not lower-cased,
      so an upper-case letter in it is never matched by a term. */
  lemma SingleTerm(term: string, path: string)
    requires '#' !in Stripped(term) && ',' !in Stripped(term)
    ensures Passes([term], path) <==> (Contains(path, Stripped(term)) != IsExclusion(term))
  {
    SingleWordMatches(Stripped(term), path, IsJsSpace);
    ExclusionOfLowered(term);
    var terms := [term];
    assert terms[0] == term;
    assert Matched(terms, path, IsJsSpace) <==> SectionsMatch(Stripped(term), path, IsJsSpace);
    assert Excluded(terms, path, IsJsSpace) <==> IsExclusion(term) && SectionsMatch(Stripped(term), path, IsJsSpace);
    assert AllExclusions(terms) <==> HasPrefix(term, "!");
  }

  /** Only exclusions, none of them matching, pass the song; any matching exclusion
      rejects it. */
  lemma ExclusionRules(terms: seq<string>, path: string)
    ensures Excluded(terms, path, IsJsSpace) ==> !Passes(terms, path)
    ensures terms != [] && AllExclusions(terms) && !Excluded(terms, path, IsJsSpace) ==> Passes(terms, path)
    ensures terms != [] && !AllExclusions(terms) ==>
              (Passes(terms, path) <==> Matched(terms, path, IsJsSpace) && !Excluded(terms, path, IsJsSpace))
  {
  }
}
