/**
 * The in-place ordering that sort.Slice performs for the two sortByNew helpers of
 * the play command: a song list reordered so that newer timestamps come first.
 */
module SongSort {

  /** Access, modification and change time of a file (times.Timespec), as integers. */
  datatype Timespec = Timespec(accessTime: int, modTime: int, changeTime: int)

  /** A song file found by the play command: its timestamps and its path. */
  datatype Song = Song(stat: Timespec, path: string)

  /** No entry has a larger key than an entry before it. */
  ghost predicate NewestFirst<T>(s: seq<T>, key: T -> int) {
    forall p, q :: 0 <= p < q < |s| ==> key(s[p]) >= key(s[q])
  }

  /** Adjacent entries are non-increasing by key. */
  lemma NewestFirstAdjacent<T>(s: seq<T>, key: T -> int)
    requires NewestFirst(s, key)
    ensures forall i :: 0 <= i < |s| - 1 ==> key(s[i]) >= key(s[i + 1])
  {
  }

  /** The first `i` entries are in order and none of them is older than an entry after them. */
  ghost predicate SortedUpTo<T>(s: seq<T>, key: T -> int, i: nat)
    requires i <= |s|
  {
    && (forall p, q :: 0 <= p < q < i ==> key(s[p]) >= key(s[q]))
    && (forall p, q :: 0 <= p < i <= q < |s| ==> key(s[p]) >= key(s[q]))
  }

  /** Swapping the newest remaining entry into position i extends the sorted prefix by one. */
  lemma SwapExtendsPrefix<T>(s: seq<T>, key: T -> int, i: nat, m: nat)
    requires i <= m < |s| && SortedUpTo(s, key, i)
    requires forall q :: i <= q < |s| ==> key(s[m]) >= key(s[q])
    ensures SortedUpTo(s[i := s[m]][m := s[i]], key, i + 1)
    ensures multiset(s[i := s[m]][m := s[i]]) == multiset(s)
  {
    var t := s[i := s[m]][m := s[i]];
    forall p, q | 0 <= p < i + 1 <= q < |t|
      ensures key(t[p]) >= key(t[q])
    {
      if p < i {
        assert t[p] == s[p];
      } else {
        assert t[p] == s[m];
      }
    }
  }

  /** Orders `a` in place so that key(a[i]) >= key(a[j]) whenever i < j, which is
      what sort.Slice guarantees for the comparator key(a[i]) > key(a[j]); the result
      is a permutation of the input. sort.Slice is not stable, and neither of these
      postconditions fixes the order of entries with equal keys. */
  method SortByKeyDescending<T>(a: array<T>, key: T -> int)
    modifies a
    ensures NewestFirst(a[..], key)
    ensures multiset(a[..]) == old(multiset(a[..]))
  {
    var i := 0;
    while i < a.Length
      invariant 0 <= i <= a.Length
      invariant SortedUpTo(a[..], key, i)
      invariant multiset(a[..]) == old(multiset(a[..]))
    {
      var m := NewestFrom(a, key, i);
      ghost var before := a[..];
      SwapExtendsPrefix(before, key, i, m);
      a[i], a[m] := a[m], a[i];
      assert a[..] == before[i := before[m]][m := before[i]];
      i := i + 1;
    }
  }

  /** The index of an entry at or after `i` whose key is the largest of that suffix. */
  method NewestFrom<T>(a: array<T>, key: T -> int, i: nat) returns (m: nat)
    requires i < a.Length
    ensures i <= m < a.Length
    ensures forall q :: i <= q < a.Length ==> key(a[m]) >= key(a[q])
  {
    m := i;
    var j := i + 1;
    while j < a.Length
      invariant i <= m < a.Length && i < j <= a.Length
      invariant forall q :: i <= q < j ==> key(a[m]) >= key(a[q])
    {
      if key(a[j]) > key(a[m]) {
        m := j;
      }
      j := j + 1;
    }
  }

  /** With equal keys both orders satisfy the postcondition: the order of ties is unspecified. */
  lemma TiesInEitherOrder<T>(x: T, y: T, key: T -> int)
    requires key(x) == key(y)
    ensures NewestFirst([x, y], key) && NewestFirst([y, x], key)
  {
  }
}
