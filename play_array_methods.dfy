/**
 * commands/play/array-methods.go: sortByNew by modification time. Its `every` and
 * `some` are the same loops as array-utils/array-utils.go (module ArrayUtils).
 */
module PlayArrayMethods {
  import opened SongSort

  function ModTime(s: Song): int {
    s.stat.modTime
  }

  /** sortByNew (commands/play/array-methods.go:5-9): newest modification time
      first, and the same songs as before. */
  method SortByNew(songs: array<Song>)
    modifies songs
    ensures NewestFirst(songs[..], ModTime)
    ensures forall i :: 0 <= i < songs.Length - 1 ==> songs[i].stat.modTime >= songs[i + 1].stat.modTime
    ensures multiset(songs[..]) == old(multiset(songs[..]))
  {
    SortByKeyDescending(songs, ModTime);
    NewestFirstAdjacent(songs[..], ModTime);
  }
}
