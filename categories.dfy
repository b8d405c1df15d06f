/** The extension table of the cleaner and the destination it gives a file:
    `<downloads>/Downloaded <Label>/<basename>`. */
module Categories {
  import opened PathNames

  datatype Option<T> = None | Some(value: T)

  /** One row of `folder_mapping`: a folder label and its extensions. */
  type Rule = (string, set<string>)

  const ImageExtensions: set<string> := {".jpg", ".jpeg", ".png", ".gif", ".bmp", ".svg", ".webp"}
  const MusicExtensions: set<string> := {".mp3", ".wav", ".flac", ".aac", ".ogg", ".m4a"}
  const VideoExtensions: set<string> := {".mp4", ".avi", ".mov", ".mkv", ".wmv", ".flv", ".webm"}
  const DocumentExtensions: set<string> := {".pdf", ".docx", ".xlsx", ".pptx", ".txt"}

  /** `folder_mapping`, in the insertion order that Python's dict iterates in;
      the last row is the catch-all with no extensions. */
  const FolderMapping: seq<Rule> := [
    ("Images", ImageExtensions),
    ("Music", MusicExtensions),
    ("Videos", VideoExtensions),
    ("Documents", DocumentExtensions),
    ("Others", {})
  ]

  /** The label used when no rule matches. */
  const CatchAll := "Others"

  /** No extension belongs to two rows. */
  ghost predicate PairwiseDisjoint(mapping: seq<Rule>) {
    forall i, j :: 0 <= i < j < |mapping| ==> mapping[i].1 !! mapping[j].1
  }

  /** The first row, in order, whose extensions contain `ext`. */
  function Lookup(mapping: seq<Rule>, ext: string): Option<string> {
    if mapping == [] then None
    else if ext in mapping[0].1 then Some(mapping[0].0)
    else Lookup(mapping[1..], ext)
  }

  /** `Lookup` finds nothing exactly when no row lists `ext`, and otherwise
      gives the label of the first row that does. */
  lemma {:induction false} LookupSpec(mapping: seq<Rule>, ext: string)
    ensures var r := Lookup(mapping, ext);
            (r.None? <==> forall i :: 0 <= i < |mapping| ==> ext !in mapping[i].1) &&
            (r.Some? ==> exists i :: 0 <= i < |mapping| && ext in mapping[i].1 && r.value == mapping[i].0 &&
                                     forall j :: 0 <= j < i ==> ext !in mapping[j].1)
  {
    if mapping != [] && ext !in mapping[0].1 {
      var rest := mapping[1..];
      LookupSpec(rest, ext);
      assert forall i :: 0 <= i < |rest| ==> rest[i] == mapping[i + 1];
      if Lookup(rest, ext).Some? {
        var i :| 0 <= i < |rest| && ext in rest[i].1 && Lookup(rest, ext).value == rest[i].0 &&
                 forall j :: 0 <= j < i ==> ext !in rest[j].1;
        assert mapping[i + 1] == rest[i];
        assert forall j :: 0 <= j < i + 1 ==> ext !in mapping[j].1 by {
          forall j | 0 < j < i + 1 ensures ext !in mapping[j].1 {
            assert mapping[j] == rest[j - 1];
          }
        }
      } else {
        forall i | 0 <= i < |mapping| ensures ext !in mapping[i].1 {
          if i > 0 { assert mapping[i] == rest[i - 1]; }
        }
      }
    }
  }

  /** With disjoint rows, the first match is the only match. */
  lemma {:induction false} LookupUnique(mapping: seq<Rule>, ext: string, i: int)
    requires PairwiseDisjoint(mapping)
    requires 0 <= i < |mapping| && ext in mapping[i].1
    ensures Lookup(mapping, ext) == Some(mapping[i].0)
  {
    if i > 0 {
      assert ext !in mapping[0].1 by {
        assert mapping[0].1 !! mapping[i].1;
      }
      assert mapping[1..][i - 1] == mapping[i];
      LookupUnique(mapping[1..], ext, i - 1);
    }
  }

  /** No image extension is listed in another set. */
  lemma ImagesApart()
    ensures ImageExtensions !! MusicExtensions && ImageExtensions !! VideoExtensions
    ensures ImageExtensions !! DocumentExtensions
  {
  }

  /** No music or video extension is listed in a later set. */
  lemma MusicAndVideosApart()
    ensures MusicExtensions !! VideoExtensions && MusicExtensions !! DocumentExtensions
    ensures VideoExtensions !! DocumentExtensions
  {
  }

  /** No extension is listed in two rows of the table. */
  lemma FolderMappingDisjoint()
    ensures PairwiseDisjoint(FolderMapping)
  {
    ImagesApart();
    MusicAndVideosApart();
  }

  /** The folder label of a lower-cased extension: the matching row's label,
      or the catch-all. */
  function Category(ext: string): string {
    match Lookup(FolderMapping, ext)
    case Some(folder) => folder
    case None => CatchAll
  }

  /** Every extension gets one of the five labels. */
  lemma CategoryIsLabel(ext: string)
    ensures Category(ext) in {"Images", "Music", "Videos", "Documents", "Others"}
  {
    LookupSpec(FolderMapping, ext);
  }

  /** An extension listed in one of the first four rows gets that row's label,
      and only such an extension does. */
  lemma CategoryOfListed(ext: string, i: int)
    requires 0 <= i < 4
    ensures Category(ext) == FolderMapping[i].0 <==> ext in FolderMapping[i].1
  {
    FolderMappingDisjoint();
    LookupSpec(FolderMapping, ext);
    if ext in FolderMapping[i].1 {
      LookupUnique(FolderMapping, ext, i);
    } else if Lookup(FolderMapping, ext).Some? {
      var j :| 0 <= j < |FolderMapping| && ext in FolderMapping[j].1 && Category(ext) == FolderMapping[j].0;
      assert j != i;
    }
  }

  /** Every other extension, the empty one included, goes to the catch-all. */
  lemma CategoryOfUnlisted(ext: string)
    ensures Category(ext) == CatchAll <==> forall i :: 0 <= i < |FolderMapping| ==> ext !in FolderMapping[i].1
  {
    LookupSpec(FolderMapping, ext);
    if Lookup(FolderMapping, ext).Some? {
      var j :| 0 <= j < |FolderMapping| && ext in FolderMapping[j].1 && Category(ext) == FolderMapping[j].0;
      assert j < 4;
    }
  }

  /** The folder `move_file` picks for `path`. */
  function DestinationFolder(downloads: string, path: string): string {
    Join(downloads, Subfolder(path))
  }

  /** The name of that folder: `Downloaded <Label>` for the lower-cased
      extension of `path`. */
  function Subfolder(path: string): string {
    "Downloaded " + Category(LowerAscii(SplitExt(path).1))
  }

  /** The path `move_file` moves `path` to. */
  function DestinationPath(downloads: string, path: string): string {
    Join(DestinationFolder(downloads, path), Basename(path))
  }

  /** The category folder never ends with a separator. */
  lemma DestinationFolderShape(downloads: string, path: string)
    ensures var folder := DestinationFolder(downloads, path);
            folder != [] && folder[|folder| - 1] != '/'
  {
    var c := Category(LowerAscii(SplitExt(path).1));
    CategoryIsLabel(LowerAscii(SplitExt(path).1));
    var sub := "Downloaded " + c;
    assert sub[|sub| - 1] != '/';
    JoinSpec(downloads, sub);
  }

  /** The destination is the category folder, one separator, then the
      unchanged base name of the source. */
  lemma DestinationKeepsName(downloads: string, path: string)
    ensures DestinationPath(downloads, path) == DestinationFolder(downloads, path) + "/" + Basename(path)
    ensures Basename(DestinationPath(downloads, path)) == Basename(path)
  {
    DestinationFolderShape(downloads, path);
    JoinKeepsName(DestinationFolder(downloads, path), path);
  }

  /** Classification ignores case: two paths that lower-case to the same text
      get the same folder (so `photo.JPG` and `photo.jpg` do). */
  lemma DestinationIgnoresCase(downloads: string, p: string, q: string)
    requires LowerAscii(p) == LowerAscii(q)
    ensures DestinationFolder(downloads, p) == DestinationFolder(downloads, q)
  {
    SplitExtOfLower(p);
    SplitExtOfLower(q);
  }

  /** Only the base name decides the folder, not the directory in front. */
  lemma DestinationOfJoin(downloads: string, dir: string, name: string)
    requires NoSep(name)
    ensures DestinationFolder(downloads, Join(dir, name)) == DestinationFolder(downloads, name)
  {
    SplitExtOfBasename(Join(dir, name));
    BasenameOfJoin(dir, name);
    SplitExtOfBasename(name);
    BasenameOfJoin("", name);
    JoinSpec("", name);
  }

  /** `name` holds no separator, starts with something other than a dot,
      and its last dot is at `dot`, followed by no upper-case letter. */
  predicate PlainName(name: string, dot: int) {
    && NoSep(name) && 0 < dot < |name| && name[0] != '.' && name[dot] == '.'
    && forall k :: dot < k < |name| ==> name[k] != '.' && !('A' <= name[k] <= 'Z')
  }

  /** The folder of such a name is picked by the text from its last dot on. */
  lemma FolderOfName(downloads: string, name: string, dot: int)
    requires PlainName(name, dot)
    ensures DestinationFolder(downloads, name) == Join(downloads, "Downloaded " + Category(name[dot..]))
  {
    LastIndexOfUnique(name, '/', -1);
    LastIndexOfUnique(name, '.', dot);
    assert HasStem(name, -1, dot);
    var ext := name[dot..];
    LowerAsciiAt(ext);
    assert LowerAscii(ext) == ext;
  }

  /** A file straight inside the downloads folder whose extension is listed
      in row `i` goes to that row's folder. */
  lemma FolderOfListedName(downloads: string, name: string, dot: int, i: int)
    requires PlainName(name, dot) && 0 <= i < 4 && name[dot..] in FolderMapping[i].1
    ensures DestinationFolder(downloads, Join(downloads, name)) == Join(downloads, "Downloaded " + FolderMapping[i].0)
  {
    DestinationOfJoin(downloads, downloads, name);
    FolderOfName(downloads, name, dot);
    CategoryOfListed(name[dot..], i);
  }

  /** The name of the cleaner's own log file, kept in the downloads folder. */
  const LogFileName := "download_organizer_log.txt"

  /** The log file is a `.txt` and is filed with the documents like any
      other file of the folder. */
  lemma LogFileGoesToDocuments(downloads: string, name: string)
    requires name == LogFileName
    ensures DestinationFolder(downloads, Join(downloads, name)) == Join(downloads, "Downloaded Documents")
  {
    LogFileNameIsPlain(name);
    assert ".txt" in FolderMapping[3].1;
    FolderOfListedName(downloads, name, 22, 3);
    FolderNames();
  }

  /** The names of the category folders, spelled out. */
  lemma FolderNames()
    ensures "Downloaded " + FolderMapping[0].0 == "Downloaded Images"
    ensures "Downloaded " + FolderMapping[3].0 == "Downloaded Documents"
    ensures "Downloaded " + CatchAll == "Downloaded Others"
  {
  }

  /** The log file's name holds no separator and ends in `.txt`. */
  lemma LogFileNameIsPlain(name: string)
    requires name == LogFileName
    ensures PlainName(name, 22) && name[22..] == ".txt"
  {
  }

  /** `photo.JPG` and `photo.jpg` go to the same folder. */
  lemma PhotoCaseIgnored(downloads: string, upper: string, lower: string)
    requires upper == "photo.JPG" && lower == "photo.jpg"
    ensures DestinationFolder(downloads, upper) == DestinationFolder(downloads, lower)
  {
    LowerAsciiAt(upper);
    LowerAsciiAt(lower);
    assert LowerAscii(upper) == LowerAscii(lower);
    DestinationIgnoresCase(downloads, upper, lower);
  }

  /** `photo.jpg` in the downloads folder goes to the images folder. */
  lemma PhotoGoesToImages(downloads: string, name: string)
    requires name == "photo.jpg"
    ensures DestinationFolder(downloads, Join(downloads, name)) == Join(downloads, "Downloaded Images")
  {
    assert PlainName(name, 5) && name[5..] in FolderMapping[0].1 by {
      assert name[5..] == ".jpg";
    }
    FolderOfListedName(downloads, name, 5, 0);
    FolderNames();
  }

  /** A hidden file such as `.bashrc` has no extension and goes to the
      catch-all folder. */
  lemma HiddenFileGoesToOthers(downloads: string, name: string)
    requires name == ".bashrc"
    ensures DestinationFolder(downloads, name) == Join(downloads, "Downloaded Others")
  {
    LastIndexOfUnique(name, '/', -1);
    LastIndexOfUnique(name, '.', 0);
    LeadingDotsAreNoExtension(name);
    assert LowerAscii("") == "";
    CategoryOfUnlisted("");
    FolderNames();
  }
}
