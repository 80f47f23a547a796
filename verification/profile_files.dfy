/**
 * Where a profile's file is: the path the code builds from an ICCID, resolved from
 * the profile directory as the file system resolves it.
 */
module ProfileFiles {
  import opened Text
  import opened Wrappers

  type Path = seq<string>

  /**
   * The file system as far as profile files see it: the profile directory, by the
   * components of its absolute path, all existing directories, and all paths that
   * can be written as a file.
   */
  datatype FileSystem = FileSystem(home: Path, directories: set<Path>, writable: set<Path>)

  /** A file of the profile directory, one outside it, or one that cannot be opened. */
  datatype Place = Inside(name: string) | Outside | Nowhere

  /** The directory some components lead to; each step has to exist. */
  function Walk(fs: FileSystem, at: Path, parts: seq<string>): Option<Path>
    decreases |parts|
  {
    if parts == [] then Some(at)
    else
      var next := if parts[0] == "" || parts[0] == "." then at
                  else if parts[0] == ".." then (if at == [] then [] else at[..|at| - 1])
                  else at + [parts[0]];
      if next in fs.directories then Walk(fs, next, parts[1..]) else None
  }

  predicate Absolute(text: string) {
    text != "" && text[0] == '/'
  }

  /** `profile_dir / text`: the last component is the file's name. */
  function Resolve(fs: FileSystem, text: string): Place {
    var parts := Split(text, "/");
    var name := parts[|parts| - 1];
    match Walk(fs, if Absolute(text) then [] else fs.home, parts[..|parts| - 1])
    case None => Nowhere
    case Some(directory) =>
      if directory + [name] !in fs.writable then Nowhere
      else if directory == fs.home then Inside(name)
      else Outside
  }

  /** `profile_dir / f"{iccid}.json"` */
  function PlaceOf(fs: FileSystem, iccid: string): Place {
    Resolve(fs, iccid + ".json")
  }

  /** The profile directory and the directories above it exist. */
  ghost predicate Mounted(fs: FileSystem) {
    forall n :: 0 <= n <= |fs.home| ==> fs.home[..n] in fs.directories
  }

  lemma SplitAfterSlash(pre: string, text: string)
    requires '/' !in pre
    ensures Split(pre + "/" + text, "/") == [pre] + Split(text, "/")
  {
    SplitAtChar(pre, '/', text);
    assert ['/'] == "/";
  }

  /** A leading "./" changes nothing: two ICCIDs, one file. */
  lemma DotSlashSame(fs: FileSystem, iccid: string)
    requires Mounted(fs) && !Absolute(iccid)
    ensures PlaceOf(fs, "./" + iccid) == PlaceOf(fs, iccid)
  {
    hide Split;
    var text := iccid + ".json";
    var rest := Split(text, "/");
    assert "./" + iccid + ".json" == "." + "/" + text;
    SplitAfterSlash(".", text);
    var parts := ["."] + rest;
    assert parts[..|parts| - 1] == ["."] + rest[..|rest| - 1];
    assert parts[..|parts| - 1][1..] == rest[..|rest| - 1];
    assert fs.home[..|fs.home|] == fs.home;
  }

  /** An ICCID without a slash is a file of its own name in the directory. */
  lemma PlainInside(fs: FileSystem, iccid: string)
    requires '/' !in iccid
    ensures PlaceOf(fs, iccid) == if fs.home + [iccid + ".json"] in fs.writable then Inside(iccid + ".json") else Nowhere
  {
    hide Split;
    var text := iccid + ".json";
    assert forall c :: c in ".json" ==> c != '/';
    FindNoChar(text, '/');
    assert ['/'] == "/" && [text][..0] == [];
  }

  /** A leading "../" leaves the directory. */
  lemma ParentOutside(fs: FileSystem, iccid: string)
    requires Mounted(fs) && fs.home != [] && '/' !in iccid
    ensures !PlaceOf(fs, "../" + iccid).Inside?
  {
    hide Split;
    var text := iccid + ".json";
    assert "../" + iccid + ".json" == ".." + "/" + text;
    SplitAfterSlash("..", text);
    assert forall c :: c in ".json" ==> c != '/';
    FindNoChar(text, '/');
    assert ['/'] == "/";
    var parts := [".."] + [text];
    assert parts[..1] == [".."] && [".."][1..] == [];
    assert fs.home[..|fs.home| - 1] != fs.home;
  }
}
