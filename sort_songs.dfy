/** commands/play/sort-songs.go: sortByNew with a selectable timestamp. */
module SortSongs {
  import opened SongSort

  /** The timestamp the comparator reads: access time for "a", change time for "c",
      modification time for anything else. */
  function TimeOf(requestedTimeStat: string, s: Song): int {
    if requestedTimeStat == "a" then s.stat.accessTime
    else if requestedTimeStat == "c" then s.stat.changeTime
    else s.stat.modTime
  }

  lemma TimeOfSelection(requestedTimeStat: string, s: Song)
    ensures requestedTimeStat == "a" ==> TimeOf(requestedTimeStat, s) == s.stat.accessTime
    ensures requestedTimeStat == "c" ==> TimeOf(requestedTimeStat, s) == s.stat.changeTime
    ensures requestedTimeStat != "a" && requestedTimeStat != "c" ==> TimeOf(requestedTimeStat, s) == s.stat.modTime
  {
  }

  /** sortByNew (commands/play/sort-songs.go:7-17): non-increasing by the chosen
      timestamp, and a permutation of the songs before the call. */
  method SortByNew(songs: array<Song>, requestedTimeStat: string)
    modifies songs
    ensures forall p, q :: 0 <= p < q < songs.Length ==> TimeOf(requestedTimeStat, songs[p]) >= TimeOf(requestedTimeStat, songs[q])
    ensures multiset(songs[..]) == old(multiset(songs[..]))
  {
    var key := (s: Song) => TimeOf(requestedTimeStat, s);
    SortByKeyDescending(songs, key);
    assert forall p, q :: 0 <= p < q < songs.Length ==> key(songs[..][p]) >= key(songs[..][q]);
  }
}
