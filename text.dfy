/**
 * String operations of the Go, TypeScript and Rust standard libraries that the
 * modelled code calls (strings.Contains, strings.Replace, strings.Split,
 * strings.Fields, strings.TrimSpace, bufio.ScanLines, String.prototype.split
 * with a regular expression, str::replace, ...), written over `seq<char>`.
 */
module Text {
  import opened Wrappers

  /* ---------------- character classes ---------------- */

  /** Go's unicode.IsSpace, which is the Unicode White_Space property
      (also what Rust's regex `\s` matches). */
  predicate IsUnicodeSpace(c: char) {
    c == ' ' || c == '\t' || c == '\n' || c == '\U{000B}' || c == '\U{000C}' || c == '\r'
    || c == '\U{0085}' || c == '\U{00A0}' || c == '\U{1680}'
    || ('\U{2000}' <= c <= '\U{200A}')
    || c == '\U{2028}' || c == '\U{2029}' || c == '\U{202F}' || c == '\U{205F}' || c == '\U{3000}'
  }

  /** `\s` of Go's regexp package (RE2 syntax): [\t\n\f\r ]. */
  predicate IsRe2Space(c: char) {
    c == ' ' || c == '\t' || c == '\n' || c == '\U{000C}' || c == '\r'
  }

  /** `\s` of ECMAScript regular expressions: White_Space without U+0085, plus U+FEFF. */
  predicate IsJsSpace(c: char) {
    (IsUnicodeSpace(c) && c != '\U{0085}') || c == '\U{FEFF}'
  }

  /** ASCII case mapping of one character. */
  function LowerChar(c: char): char {
    if 'A' <= c <= 'Z' then (c as int + 32) as char else c
  }

  /** Lower-casing, character by character (ASCII case mapping). */
  function Lower(s: string): string {
    seq(|s|, i requires 0 <= i < |s| => LowerChar(s[i]))
  }

  lemma LowerIdempotent(s: string)
    ensures Lower(Lower(s)) == Lower(s)
  {
  }

  lemma LowerAppend(a: string, b: string)
    ensures Lower(a + b) == Lower(a) + Lower(b)
  {
    assert forall i :: 0 <= i < |a| ==> (a + b)[i] == a[i];
    assert forall i :: |a| <= i < |a| + |b| ==> (a + b)[i] == b[i - |a|];
  }

  /** A lower-cased text never contains a pattern with an upper-case letter. */
  lemma LowerLacksUpper(s: string, p: string, k: nat)
    requires k < |p| && 'A' <= p[k] <= 'Z'
    ensures !Contains(Lower(s), p)
  {
    forall i: nat | i + |p| <= |s|
      ensures !OccursAt(Lower(s), p, i)
    {
      assert Lower(s)[i..i + |p|][k] == LowerChar(s[i + k]);
    }
  }

  /* ---------------- prefixes, suffixes, search ---------------- */

  predicate HasPrefix(s: string, p: string) {
    |p| <= |s| && s[..|p|] == p
  }

  predicate HasSuffix(s: string, p: string) {
    |p| <= |s| && s[|s| - |p|..] == p
  }

  /** strings.TrimPrefix */
  function TrimPrefix(s: string, p: string): string {
    if HasPrefix(s, p) then s[|p|..] else s
  }

  predicate OccursAt(s: string, p: string, i: nat) {
    i + |p| <= |s| && s[i..i + |p|] == p
  }

  /** The first index at or after `from` where `p` occurs in `s`. */
  function IndexFrom(s: string, p: string, from: nat): (r: Option<nat>)
    requires from <= |s|
    ensures r.Some? ==> from <= r.value && OccursAt(s, p, r.value)
                        && forall j :: from <= j < r.value ==> !OccursAt(s, p, j)
    ensures r.None? ==> forall j :: from <= j <= |s| ==> !OccursAt(s, p, j)
    decreases |s| - from
  {
    if OccursAt(s, p, from) then Some(from)
    else if from == |s| then None
    else IndexFrom(s, p, from + 1)
  }

  /** strings.Index: the first occurrence of `p` in `s`. */
  function IndexOf(s: string, p: string): Option<nat> {
    IndexFrom(s, p, 0)
  }

  /** strings.Contains / String.prototype.includes / str::contains. */
  predicate Contains(s: string, p: string) {
    IndexOf(s, p).Some?
  }

  lemma ContainsAt(s: string, p: string, i: nat)
    requires OccursAt(s, p, i)
    ensures Contains(s, p)
  {
  }

  lemma ContainsEmpty(s: string)
    ensures Contains(s, "")
  {
    assert OccursAt(s, "", 0);
  }

  lemma PrefixContained(s: string, p: string)
    requires HasPrefix(s, p)
    ensures IndexOf(s, p) == Some(0)
  {
    assert OccursAt(s, p, 0);
  }

  /* ---------------- replacing ---------------- */

  /** strings.Replace(s, old, new, 1): replaces the first occurrence only. */
  function ReplaceFirst(s: string, pat: string, rep: string): string {
    match IndexOf(s, pat)
    case None => s
    case Some(i) => s[..i] + rep + s[i + |pat|..]
  }

  /** Rust's str::replace: every non-overlapping occurrence, scanning left to right
      (an empty pattern matches before every character and at the end). */
  function ReplaceAll(s: string, pat: string, rep: string): string
    decreases |s|, |pat|
  {
    if pat == [] then
      if s == [] then rep else rep + [s[0]] + ReplaceAll(s[1..], pat, rep)
    else if s == [] then []
    else if HasPrefix(s, pat) then rep + ReplaceAll(s[|pat|..], pat, rep)
    else [s[0]] + ReplaceAll(s[1..], pat, rep)
  }

  /** A pattern at the front is removed, and the rest is replaced on its own. */
  lemma ReplaceAllPrefix(p: string, rest: string, rep: string)
    requires p != []
    ensures ReplaceAll(p + rest, p, rep) == rep + ReplaceAll(rest, p, rep)
  {
    assert (p + rest)[..|p|] == p;
    assert (p + rest)[|p|..] == rest;
  }

  lemma ReplaceAllAbsent(s: string, pat: string, rep: string)
    requires pat != [] && !Contains(s, pat)
    ensures ReplaceAll(s, pat, rep) == s
    decreases |s|
  {
    if s != [] {
      assert !OccursAt(s, pat, 0);
      forall j: nat | j + |pat| <= |s| - 1
        ensures !OccursAt(s[1..], pat, j)
      {
        assert s[1..][j..j + |pat|] == s[j + 1..j + 1 + |pat|];
        assert !OccursAt(s, pat, j + 1);
      }
      ReplaceAllAbsent(s[1..], pat, rep);
    }
  }


  /* ---------------- splitting and joining ---------------- */

  /** The first index of `c` in `s`, or |s| when there is none. */
  function FindChar(s: string, c: char): (i: nat)
    ensures i <= |s| && (i < |s| ==> s[i] == c) && c !in s[..i]
  {
    if s == [] then 0 else if s[0] == c then 0 else 1 + FindChar(s[1..], c)
  }

  /** strings.Split(s, sep) for a one-character separator (also "".split(",") in
      JavaScript): always at least one piece, and "" gives [""]. */
  function Split(s: string, sep: char): (r: seq<string>)
    ensures |r| >= 1
    ensures forall k :: 0 <= k < |r| ==> sep !in r[k]
    decreases |s|
  {
    var i := FindChar(s, sep);
    if i == |s| then [s] else [s[..i]] + Split(s[i + 1..], sep)
  }

  lemma SplitNoSeparator(s: string, sep: char)
    requires sep !in s
    ensures Split(s, sep) == [s]
  {
  }

  /** A string holding the separator splits into two pieces or more. */
  lemma SplitSeparated(s: string, sep: char)
    requires sep in s
    ensures |Split(s, sep)| >= 2
  {
    assert s[..|s|] == s;
  }

  lemma SplitCons(x: string, sep: char, y: string)
    requires sep !in x
    ensures Split(x + [sep] + y, sep) == [x] + Split(y, sep)
  {
    var s := x + [sep] + y;
    var i := FindChar(s, sep);
    FindCharAfter(x, sep, y);
    assert s[..i] == x;
    assert s[i + 1..] == y;
  }

  lemma FindCharAfter(x: string, c: char, y: string)
    requires c !in x
    ensures FindChar(x + [c] + y, c) == |x|
  {
    if x != [] {
      assert (x + [c] + y)[1..] == x[1..] + [c] + y;
      FindCharAfter(x[1..], c, y);
    }
  }

  /** String.prototype.split with the regular expression `<sep>\s*` (and Rust's
      Regex::split of the same pattern): pieces between separators, with the run of
      spaces that follows each separator removed. */
  function SplitTrimmingAfter(s: string, sep: char, space: char -> bool): (r: seq<string>)
    ensures |r| == |Split(s, sep)| >= 1
  {
    var parts := Split(s, sep);
    seq(|parts|, k requires 0 <= k < |parts| => if k == 0 then parts[0] else TrimLeftBy(parts[k], space))
  }

  function TrimLeftBy(s: string, space: char -> bool): (r: string)
    ensures |r| <= |s| && r == s[|s| - |r|..]
    ensures r != [] ==> !space(r[0])
  {
    if s != [] && space(s[0]) then TrimLeftBy(s[1..], space) else s
  }

  function TrimRightBy(s: string, space: char -> bool): (r: string)
    ensures |r| <= |s| && r == s[..|r|]
    ensures r != [] ==> !space(r[|r| - 1])
  {
    if s != [] && space(s[|s| - 1]) then TrimRightBy(s[..|s| - 1], space) else s
  }

  /** strings.TrimSpace */
  function TrimSpace(s: string): string {
    TrimRightBy(TrimLeftBy(s, IsUnicodeSpace), IsUnicodeSpace)
  }

  /** Trimming spaces keeps every character that is not a space. */
  lemma TrimKeepsNonSpace(s: string, i: nat)
    requires i < |s| && !IsUnicodeSpace(s[i])
    ensures TrimSpace(s) != ""
  {
    var l := TrimLeftBy(s, IsUnicodeSpace);
    TrimLeftKeeps(s, i);
    var k := i - (|s| - |l|);
    TrimRightKeeps(l, k);
  }

  lemma {:induction false} TrimLeftKeeps(s: string, i: nat)
    requires i < |s| && !IsUnicodeSpace(s[i])
    ensures var l := TrimLeftBy(s, IsUnicodeSpace); |s| - |l| <= i
    decreases |s|
  {
    if s != [] && IsUnicodeSpace(s[0]) {
      TrimLeftKeeps(s[1..], i - 1);
    }
  }

  lemma {:induction false} TrimRightKeeps(s: string, i: nat)
    requires i < |s| && !IsUnicodeSpace(s[i])
    ensures |TrimRightBy(s, IsUnicodeSpace)| > i
    decreases |s|
  {
    if s != [] && IsUnicodeSpace(s[|s| - 1]) {
      TrimRightKeeps(s[..|s| - 1], i);
    }
  }

  /** Only spaces are trimmed from the right. */
  lemma {:induction false} TrimRightDropsSpaces(s: string, space: char -> bool)
    ensures forall i :: |TrimRightBy(s, space)| <= i < |s| ==> space(s[i])
    decreases |s|
  {
    if s != [] && space(s[|s| - 1]) {
      TrimRightDropsSpaces(s[..|s| - 1], space);
    }
  }

  /** Length of the leading run of characters that are not spaces. */
  function WordLength(s: string): (n: nat)
    ensures n <= |s| && forall i :: 0 <= i < n ==> !IsUnicodeSpace(s[i])
    ensures n < |s| ==> IsUnicodeSpace(s[n])
  {
    if s == [] || IsUnicodeSpace(s[0]) then 0 else 1 + WordLength(s[1..])
  }

  /** strings.Fields: the maximal runs of non-space characters. */
  function Fields(s: string): (r: seq<string>)
    ensures forall k :: 0 <= k < |r| ==> r[k] != []
    decreases |s|
  {
    if s == [] then []
    else if IsUnicodeSpace(s[0]) then Fields(s[1..])
    else
      var n := WordLength(s);
      [s[..n]] + Fields(s[n..])
  }

  /** strings.Join */
  function Join(parts: seq<string>, sep: string): string {
    if parts == [] then []
    else if |parts| == 1 then parts[0]
    else parts[0] + sep + Join(parts[1..], sep)
  }

  /** Concatenation of all pieces (strings.Join(parts, "")). */
  function Concat(parts: seq<string>): string {
    if parts == [] then [] else parts[0] + Concat(parts[1..])
  }

  lemma ConcatAppend(a: seq<string>, b: seq<string>)
    ensures Concat(a + b) == Concat(a) + Concat(b)
  {
    if a != [] {
      assert (a + b)[0] == a[0];
      assert (a + b)[1..] == a[1..] + b;
      ConcatAppend(a[1..], b);
    } else {
      assert a + b == b;
    }
  }

  /** Replaces every maximal run of `space` characters by a single '-'
      (regexp ReplaceAllString(s, "-") / String.replace(/\s+/g, '-')). */
  function DashRuns(s: string, space: char -> bool): string
    decreases |s|
  {
    if s == [] then []
    else if space(s[0]) then "-" + DashRuns(TrimLeftBy(s, space), space)
    else [s[0]] + DashRuns(s[1..], space)
  }

  /** No space survives the replacement. */
  lemma {:induction false} DashRunsNoSpace(s: string, space: char -> bool)
    requires !space('-')
    ensures forall i :: 0 <= i < |DashRuns(s, space)| ==> !space(DashRuns(s, space)[i])
    decreases |s|
  {
    if s != [] {
      if space(s[0]) {
        DashRunsNoSpace(TrimLeftBy(s, space), space);
      } else {
        DashRunsNoSpace(s[1..], space);
      }
    }
  }

  /** Text without spaces is left as it is. */
  lemma {:induction false} DashRunsIdentity(s: string, space: char -> bool)
    requires forall i :: 0 <= i < |s| ==> !space(s[i])
    ensures DashRuns(s, space) == s
    decreases |s|
  {
    if s != [] {
      DashRunsIdentity(s[1..], space);
    }
  }

  /** Replacing runs of spaces by '-' keeps letters where they were, so text
      without upper-case letters stays without them. */
  lemma {:induction false} DashRunsKeepsLower(s: string, space: char -> bool)
    requires Lower(s) == s
    ensures Lower(DashRuns(s, space)) == DashRuns(s, space)
    decreases |s|
  {
    if s != [] {
      assert LowerChar(s[0]) == Lower(s)[0];
      if space(s[0]) {
        var t := TrimLeftBy(s, space);
        assert Lower(t) == t by {
          forall i | 0 <= i < |t|
            ensures LowerChar(t[i]) == t[i]
          {
            assert t[i] == s[|s| - |t| + i];
            assert LowerChar(s[|s| - |t| + i]) == Lower(s)[|s| - |t| + i];
          }
        }
        DashRunsKeepsLower(t, space);
      } else {
        assert Lower(s[1..]) == s[1..] by {
          forall i | 0 <= i < |s| - 1
            ensures LowerChar(s[1..][i]) == s[1..][i]
          {
            assert LowerChar(s[i + 1]) == Lower(s)[i + 1];
          }
        }
        DashRunsKeepsLower(s[1..], space);
        assert Lower([s[0]] + DashRuns(s[1..], space)) == [LowerChar(s[0])] + Lower(DashRuns(s[1..], space));
      }
    }
  }

  /** Lower-casing and then replacing each run of spaces by '-' is idempotent,
      for a space class that does not contain '-'. */
  lemma FolderNameIdempotent(s: string, space: char -> bool)
    requires !space('-')
    ensures DashRuns(Lower(DashRuns(Lower(s), space)), space) == DashRuns(Lower(s), space)
  {
    LowerIdempotent(s);
    DashRunsKeepsLower(Lower(s), space);
    DashRunsNoSpace(Lower(s), space);
    DashRunsIdentity(DashRuns(Lower(s), space), space);
  }

  /* ---------------- lines ---------------- */

  function DropCR(s: string): string {
    if s != [] && s[|s| - 1] == '\r' then s[..|s| - 1] else s
  }

  /** bufio.ScanLines: lines split on '\n', a final empty line dropped, and one
      trailing '\r' removed from each line. */
  function Lines(s: string): seq<string>
    decreases |s|
  {
    if s == [] then []
    else
      var i := FindChar(s, '\n');
      if i == |s| then [DropCR(s)] else [DropCR(s[..i])] + Lines(s[i + 1..])
  }

  lemma LinesCons(x: string, rest: string)
    requires '\n' !in x
    ensures Lines(x + "\n" + rest) == [DropCR(x)] + Lines(rest)
  {
    var s := x + "\n" + rest;
    FindCharAfter(x, '\n', rest);
    assert s[..|x|] == x;
    assert s[|x| + 1..] == rest;
  }

  /* ---------------- decimal numbers ---------------- */

  function DigitChar(d: nat): char
    requires d < 10
  {
    ('0' as int + d) as char
  }

  /** Decimal digits of a natural number, without leading zeros. */
  function NatToString(n: nat): (r: string)
    ensures |r| >= 1
    ensures forall i :: 0 <= i < |r| ==> '0' <= r[i] <= '9'
  {
    if n < 10 then [DigitChar(n)] else NatToString(n / 10) + [DigitChar(n % 10)]
  }

  /** fmt.Sprint of an integer. */
  function IntToString(n: int): string {
    if n < 0 then "-" + NatToString(-n) else NatToString(n)
  }

  lemma {:induction false} NatToStringInjective(a: nat, b: nat)
    requires NatToString(a) == NatToString(b)
    ensures a == b
  {
    var sa, sb := NatToString(a), NatToString(b);
    if a < 10 && b < 10 {
      assert sa[0] == sb[0];
    } else if a >= 10 && b >= 10 {
      assert sa[|sa| - 1] == sb[|sb| - 1];
      assert a % 10 == b % 10;
      assert sa[..|sa| - 1] == NatToString(a / 10);
      assert sb[..|sb| - 1] == NatToString(b / 10);
      NatToStringInjective(a / 10, b / 10);
    }
  }
}
