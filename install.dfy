/**
 * `install <link> [folder]`, commands/install.go: a Spotify link goes to spotdl,
 * any other link to youtube-dl into one of the music directory's folders, chosen
 * by a normalised name; afterwards the user may confirm a `beet import`.
 */
module Install {
  import opened Wrappers
  import opened Text
  import MainTs

  /** Which downloader the command runs (commands/install.go:56-65). */
  datatype Route = Spotdl | YoutubeDl

  function Dispatch(positional: seq<string>): (r: Result<Route, string>)
    requires 1 <= |positional| <= 2
    ensures r == Ok(Spotdl) <==> Contains(positional[0], "spotify")
    ensures r.Err? <==> !Contains(positional[0], "spotify") && |positional| < 2
    ensures r.Err? ==> r.error == "folder is required for youtube links"
  {
    if Contains(positional[0], "spotify") then Ok(Spotdl)
    else if |positional| < 2 then Err("folder is required for youtube links")
    else Ok(YoutubeDl)
  }

  /** filepath.Join of non-empty parts, without the cleaning of "." and "..". */
  function PathJoin(parts: seq<string>): string {
    Join(parts, "/")
  }

  /* ---------------- folder names ---------------- */

  /** formatFolderName (commands/install.go:230-232): lower-cased, each run of
      `\s` replaced by '-'. */
  function FormatFolderName(folder: string): string {
    DashRuns(Lower(folder), IsRe2Space)
  }

  lemma FormatFolderNameIdempotent(folder: string)
    ensures FormatFolderName(FormatFolderName(folder)) == FormatFolderName(folder)
  {
    FolderNameIdempotent(folder, IsRe2Space);
  }

  /** One entry of the music directory's listing. */
  datatype DirEntry = DirEntry(name: string, isDir: bool)

  /** The folder loop (commands/install.go:163-177) from a given choice on: a second
      match after a choice is an error. */
  function Scan(entries: seq<DirEntry>, key: string, selected: string): Result<string, string> {
    if entries == [] then Ok(selected)
    else
      var e := entries[0];
      if e.isDir && FormatFolderName(e.name) == key then
        if selected != "" then Err("folder matches more than one folder")
        else Scan(entries[1..], key, e.name)
      else Scan(entries[1..], key, selected)
  }

  /** The names of the directories whose normalised name is `key`, in order. */
  function Matches(entries: seq<DirEntry>, key: string): seq<string> {
    if entries == [] then []
    else
      (if entries[0].isDir && FormatFolderName(entries[0].name) == key then [entries[0].name] else [])
      + Matches(entries[1..], key)
  }

  /** The folder chosen for `folder` (commands/install.go:163-183). */
  function ChosenFolder(entries: seq<DirEntry>, folder: string): Result<string, string> {
    match Scan(entries, FormatFolderName(folder), "")
    case Err(e) => Err(e)
    case Ok(selected) => if selected == "" then Err("invalid folder: " + folder) else Ok(selected)
  }

  lemma {:induction false} ScanByMatches(entries: seq<DirEntry>, key: string, selected: string)
    requires forall i :: 0 <= i < |entries| ==> entries[i].name != ""
    ensures var m := Matches(entries, key);
            Scan(entries, key, selected) ==
              if m == [] then Ok(selected)
              else if selected != "" || |m| > 1 then Err("folder matches more than one folder")
              else Ok(m[0])
  {
    if entries != [] {
      var e := entries[0];
      assert forall i :: 0 <= i < |entries[1..]| ==> entries[1..][i] == entries[i + 1];
      if e.isDir && FormatFolderName(e.name) == key {
        ScanByMatches(entries[1..], key, e.name);
      } else {
        ScanByMatches(entries[1..], key, selected);
      }
    }
  }

  /** A folder is chosen exactly when one directory matches; none is "invalid
      folder", more than one is an error too. */
  lemma ChosenFolderSpec(entries: seq<DirEntry>, folder: string)
    requires forall i :: 0 <= i < |entries| ==> entries[i].name != ""
    ensures var m := Matches(entries, FormatFolderName(folder));
            ChosenFolder(entries, folder) ==
              if m == [] then Err("invalid folder: " + folder)
              else if |m| > 1 then Err("folder matches more than one folder")
              else Ok(m[0])
  {
    ScanByMatches(entries, FormatFolderName(folder), "");
  }

  /** The loop itself. */
  method SelectFolder(entries: seq<DirEntry>, folder: string) returns (r: Result<string, string>)
    ensures r == ChosenFolder(entries, folder)
  {
    var adjustedFolder := FormatFolderName(folder);
    var selectedFolder := "";
    var i := 0;
    while i < |entries|
      invariant 0 <= i <= |entries|
      invariant Scan(entries, adjustedFolder, "") == Scan(entries[i..], adjustedFolder, selectedFolder)
    {
      assert entries[i..][1..] == entries[i + 1..];
      var f := entries[i];
      if !f.isDir {
        i := i + 1;
        continue;
      }
      if FormatFolderName(f.name) == adjustedFolder {
        if selectedFolder != "" {
          return Err("folder matches more than one folder");
        }
        selectedFolder := f.name;
      }
      i := i + 1;
    }
    if selectedFolder == "" {
      return Err("invalid folder: " + folder);
    }
    return Ok(selectedFolder);
  }

  /* ---------------- youtube-dl arguments ---------------- */

  /** "%(title)s.%(ext)s", or the given name with the extension (commands/install.go:191-195). */
  function OutputTemplate(name: string): string {
    if name != "" then name + ".%(ext)s" else "%(title)s.%(ext)s"
  }

  /** The argument list of youtube-dl (commands/install.go:185-215). `splitArgs` is
      shlex.Split of `ytdlArgs`, consulted only when that is not empty. */
  method YoutubeDlArgs(id: string, format: string, musicPath: string, selectedFolder: string, name: string,
                       ytdlArgs: string, splitArgs: Result<seq<string>, string>)
    returns (r: Result<seq<string>, string>)
    ensures ytdlArgs != "" && splitArgs.Err? ==> r == Err(splitArgs.error)
    ensures ytdlArgs == "" || splitArgs.Ok? ==>
              var extra := if ytdlArgs != "" then splitArgs.value else [];
              r == Ok(["--no-playlist", "-f", format, "-o", PathJoin([musicPath, selectedFolder, OutputTemplate(name)])]
                      + extra + ["--", MainTs.YoutubeUrl(id)])
  {
    var youtubeURL := id;
    if !HasPrefix(id, "https://") {
      youtubeURL := "https://www.youtube.com/watch?v=" + id;
    }
    var outputTemplate := "%(title)s.%(ext)s";
    if name != "" {
      outputTemplate := name + ".%(ext)s";
    }
    assert outputTemplate == OutputTemplate(name);
    var finalCmdArgs := ["--no-playlist", "-f", format, "-o", PathJoin([musicPath, selectedFolder, outputTemplate])];
    ghost var start := finalCmdArgs;
    if ytdlArgs != "" {
      if splitArgs.Err? {
        return Err(splitArgs.error);
      }
      finalCmdArgs := finalCmdArgs + splitArgs.value;
    }
    assert youtubeURL == MainTs.YoutubeUrl(id);
    assert finalCmdArgs == start + (if ytdlArgs != "" then splitArgs.value else []);
    finalCmdArgs := finalCmdArgs + ["--", youtubeURL];
    return Ok(finalCmdArgs);
  }

  /** The URL comes last, right after "--", so no extra argument can take its place. */
  lemma UrlIsLast(args: seq<string>, id: string, format: string, musicPath: string, selectedFolder: string,
                  name: string, extra: seq<string>)
    requires args == ["--no-playlist", "-f", format, "-o", PathJoin([musicPath, selectedFolder, OutputTemplate(name)])]
                     + extra + ["--", MainTs.YoutubeUrl(id)]
    ensures |args| == 7 + |extra| && args[..5] == ["--no-playlist", "-f", format, "-o", args[4]]
    ensures args[|args| - 2] == "--" && HasPrefix(args[|args| - 1], "https://")
    ensures args[5..|args| - 2] == extra
  {
  }

  /* ---------------- spotdl ---------------- */

  /** spotdl's --output value (commands/install.go:104-114): "Random" with artist and
      title for the folder "random", the folder with the title for any other, and
      an artist folder when none is given. */
  function SpotdlOutput(musicPath: string, positional: seq<string>): (r: string)
    requires 1 <= |positional| <= 2
    ensures |positional| == 1 ==> r == PathJoin([musicPath, "{artist}", "{title}"])
    ensures |positional| == 2 && positional[1] == "random" ==> r == PathJoin([musicPath, "Random", "{artist} - {title}"])
    ensures |positional| == 2 && positional[1] != "random" ==> r == PathJoin([musicPath, positional[1], "{title}"])
  {
    if |positional| > 1 then
      if positional[1] == "random" then PathJoin([musicPath, "Random", "{artist} - {title}"])
      else PathJoin([musicPath, positional[1], "{title}"])
    else PathJoin([musicPath, "{artist}", "{title}"])
  }

  /* ---------------- confirmation ---------------- */

  /** How the command ends once the download is done (commands/install.go:78-95). */
  datatype Finish = Done | BeetMissing | ImportLatest

  /** An empty answer, or one starting with 'y' or 'Y', ends the command; otherwise
      beet imports the newest file, if beet is installed. */
  function AfterDownload(input: string, beetFound: bool): (r: Finish)
    ensures r.Done? <==> input == "" || input[0] == 'y' || input[0] == 'Y'
    ensures r.BeetMissing? <==> !r.Done? && !beetFound
  {
    if |input| == 0 then Done
    else
      assert Lower(input)[..1] == [LowerChar(input[0])];
      if HasPrefix(Lower(input), "y") then Done
      else if !beetFound then BeetMissing
    else ImportLatest
  }
}
