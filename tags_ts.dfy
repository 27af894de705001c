/**
 * The tag list of the TypeScript player, src/tags.ts: tags.json holds an array of
 * named song lists; addTags either pushes a new tag or appends the missing songs
 * to the first tag of that name, and writes the whole array back.
 */
module TagList {
  import opened Wrappers
  import Tags
  import ArrayUtils

  /** A tag as src/tags.ts:9-12 declares it. */
  datatype Tag = Tag(name: string, songs: seq<string>)

  /** What the tags file holds: no file, an empty file, or a parsed array. */
  datatype TagsFile = NoFile | Blank | Stored(tags: seq<Tag>)

  /** getTags (src/tags.ts:14-20): a missing or empty file gives no tags. */
  function GetTags(file: TagsFile): (r: seq<Tag>)
    ensures file.NoFile? || file.Blank? ==> r == []
    ensures file.Stored? ==> r == file.tags
  {
    match file
    case NoFile => []
    case Blank => []
    case Stored(tags) => tags
  }

  /** `tags.find((t) => t.name === tagName)`, as the index found. */
  function Find(tags: seq<Tag>, tagName: string): (r: Option<nat>)
    ensures r.Some? ==> r.value < |tags| && tags[r.value].name == tagName
                        && forall j :: 0 <= j < r.value ==> tags[j].name != tagName
    ensures r.None? ==> forall j :: 0 <= j < |tags| ==> tags[j].name != tagName
  {
    if tags == [] then None
    else if tags[0].name == tagName then Some(0)
    else match Find(tags[1..], tagName)
      case None => None
      case Some(i) => Some(i + 1)
  }

  /** The append loop (src/tags.ts:32-36) over the songs handed in so far: each
      song not yet in the list is pushed. */
  function AppendMissing(existing: seq<string>, songs: seq<string>): seq<string> {
    if songs == [] then existing
    else
      var prev := AppendMissing(existing, songs[..|songs| - 1]);
      var song := songs[|songs| - 1];
      if song in prev then prev else prev + [song]
  }

  /** Existing songs stay first and in order; exactly the missing songs are added,
      and no duplicate is brought in. */
  lemma {:induction false} AppendMissingSpec(existing: seq<string>, songs: seq<string>)
    ensures existing <= AppendMissing(existing, songs)
    ensures forall s :: s in AppendMissing(existing, songs) <==> s in existing || s in songs
    ensures Tags.NoDuplicates(existing) ==> Tags.NoDuplicates(AppendMissing(existing, songs))
  {
    if songs != [] {
      var init := songs[..|songs| - 1];
      AppendMissingSpec(existing, init);
      assert songs == init + [songs[|songs| - 1]];
    }
  }

  /** The Go command's append is this one after dropping empty songs. */
  lemma {:induction false} GoAppendDropsEmpty(existing: seq<string>, songs: seq<string>)
    ensures Tags.AppendNew(existing, songs) == AppendMissing(existing, ArrayUtils.NonEmpty(songs))
  {
    if songs != [] {
      var init := songs[..|songs| - 1];
      var last := songs[|songs| - 1];
      GoAppendDropsEmpty(existing, init);
      assert songs == init + [last];
      ArrayUtils.NonEmptyAppend(init, [last]);
      assert ArrayUtils.NonEmpty([last]) == if last == "" then [] else [last];
      if last != "" {
        var kept := ArrayUtils.NonEmpty(init) + [last];
        var prev := Tags.AppendNew(existing, init);
        assert ArrayUtils.NonEmpty(songs) == kept;
        assert kept[..|kept| - 1] == ArrayUtils.NonEmpty(init) && kept[|kept| - 1] == last;
        assert prev == AppendMissing(existing, ArrayUtils.NonEmpty(init));
        assert AppendMissing(existing, kept) == if last in prev then prev else prev + [last];
        assert Tags.AppendNew(existing, songs) == if last !in prev then prev + [last] else prev;
      } else {
        assert ArrayUtils.NonEmpty(songs) == ArrayUtils.NonEmpty(init);
      }
    }
  }

  /** The array addTags writes (src/tags.ts:22-39). */
  function AddedTags(tags: seq<Tag>, tagName: string, songs: seq<string>): seq<Tag> {
    match Find(tags, tagName)
    case None => tags + [Tag(tagName, songs)]
    case Some(i) => tags[i := tags[i].(songs := AppendMissing(tags[i].songs, songs))]
  }

  /** A new tag is pushed last with the songs as given; otherwise only the first tag
      of that name changes, and it keeps its songs. */
  lemma AddedTagsSpec(tags: seq<Tag>, tagName: string, songs: seq<string>)
    ensures var r := AddedTags(tags, tagName, songs);
            match Find(tags, tagName)
            case None => |r| == |tags| + 1 && r[..|tags|] == tags && r[|tags|] == Tag(tagName, songs)
            case Some(i) => |r| == |tags| && r[i].name == tagName && tags[i].songs <= r[i].songs
                            && (forall s :: s in r[i].songs <==> s in tags[i].songs || s in songs)
                            && forall j :: 0 <= j < |tags| && j != i ==> r[j] == tags[j]
  {
    match Find(tags, tagName)
    case None =>
    case Some(i) => AppendMissingSpec(tags[i].songs, songs);
  }

  /** tags.json, rewritten by each call. */
  class TagsJson {
    var file: TagsFile

    constructor(file: TagsFile)
      ensures this.file == file
    {
      this.file := file;
    }

    /** addTags (src/tags.ts:22-40). */
    method AddTags(tagName: string, songs: seq<string>)
      modifies this
      ensures file == Stored(AddedTags(GetTags(old(file)), tagName, songs))
    {
      var tags := GetTags(file);
      var found := Find(tags, tagName);
      if found.None? {
        tags := tags + [Tag(tagName, songs)];
      } else {
        var i := found.value;
        var tagSongs := tags[i].songs;
        var k := 0;
        while k < |songs|
          invariant 0 <= k <= |songs|
          invariant tagSongs == AppendMissing(tags[i].songs, songs[..k])
        {
          assert songs[..k + 1][..k] == songs[..k];
          if songs[k] !in tagSongs {
            tagSongs := tagSongs + [songs[k]];
          }
          k := k + 1;
        }
        assert songs[..k] == songs;
        tags := tags[i := tags[i].(songs := tagSongs)];
      }
      file := Stored(tags);
    }
  }
}
