/** What one run of `organize_downloads` does, as functions of the snapshot
    of the downloads folder, the clock, the user's answers and the starting
    filesystem; and what follows from it. */
module OrganizePass {
  import opened PathNames
  import opened Categories
  import opened Staleness

  /** One item of the `os.scandir` listing, read right after the start
      marker is logged. */
  datatype Entry = Entry(name: string, isFile: bool, atime: int)

  /** The filesystem as the pass sees it: regular files with their last-access
      times, and directories. */
  datatype World = World(files: map<string, int>, dirs: set<string>)

  /** The configuration fixed by the cleaner's constructor. */
  datatype Settings = Settings(downloads: string, testMode: bool, threshold: int)

  /** `os.path.exists`: a file or a directory sits at `p`. */
  predicate Exists(w: World, p: string) {
    p in w.dirs || p in w.files
  }

  /** What the pass does with one entry. */
  datatype Fate = Ignored | Moved | KeptAndMoved | Deleted {
    predicate Moves() {
      Moved? || KeptAndMoved?
    }
  }

  /** The full path the pass builds for an entry. */
  function FilePath(s: Settings, e: Entry): string {
    Join(s.downloads, e.name)
  }

  /** A file that has not expired at time `now` is moved; an expired one is
      deleted when the user answers `deleteIt`, and kept and moved otherwise. */
  function FileFate(s: Settings, now: int, atime: int, deleteIt: bool): Fate {
    if !Expired(now, atime, s.threshold) then Moved
    else if deleteIt then Deleted
    else KeptAndMoved
  }

  /** Directories are skipped; a file meets the fate above. `clock(i)` is the
      time when entry `i` is examined; `ask(p)` is true when the user chooses
      to delete `p`. */
  function FateOf(s: Settings, clock: nat -> int, ask: string -> bool, e: Entry, i: nat): Fate {
    if !e.isFile then Ignored else FileFate(s, clock(i), e.atime, ask(FilePath(s, e)))
  }

  /** The messages a pass hands to `log_action`, one per call site. */
  datatype Message =
    | Missing(downloads: string)
    | Started
    | Completed
    | DeletedFile(path: string)
    | KeptFile(path: string)
    | MovedFile(path: string, dest: string)
  {
    /** The exact text logged for the message. */
    function Text(): string {
      match this
      case Missing(downloads) => "ERROR: Downloads directory '" + downloads + "' not found."
      case Started => "\n=== File Organization Started ==="
      case Completed => "=== File Organization Completed ===\n"
      case DeletedFile(path) => "Deleted: " + path
      case KeptFile(path) => "Kept: " + path
      case MovedFile(path, dest) => "Moved: " + path + " \U{2192} " + dest
    }
  }

  /** The messages logged for one entry, in order. */
  function EntryLog(s: Settings, e: Entry, fate: Fate): seq<Message> {
    var p := FilePath(s, e);
    var moved := MovedFile(p, DestinationPath(s.downloads, p));
    match fate
    case Ignored => []
    case Moved => [moved]
    case KeptAndMoved => [KeptFile(p), moved]
    case Deleted => [DeletedFile(p)]
  }

  /** The path `log_action` appends to: the log file in the downloads
      folder. */
  function LogPath(s: Settings): string {
    Join(s.downloads, LogFileName)
  }

  /** `open(log_file, "a")` outside test mode: the log file is created, with
      access time `t`, when it is not there; an existing one is left as it
      is. In test mode the log file is not opened. */
  function TouchLog(s: Settings, w: World, t: int): World {
    if s.testMode || LogPath(s) in w.files then w
    else w.(files := w.files[LogPath(s) := t])
  }

  /** `os.makedirs` guarded by `os.path.exists`: a folder that exists, or a
      file in its place, leaves the world as it is. Only the folder itself is
      added: its parent, the downloads folder, is taken to exist already. */
  function EnsureFolder(w: World, folder: string): World {
    if Exists(w, folder) then w else w.(dirs := w.dirs + {folder})
  }

  /** `shutil.move(p, dest)`: the file leaves `p` and arrives at `dest` with
      its access time. */
  function Relocate(files: map<string, int>, p: string, dest: string, atime: int): map<string, int> {
    (files - {p})[dest := atime]
  }

  /** What `move_file(p)` does to the filesystem at time `t`: the
      destination folder is created when nothing is in its place, even in
      test mode; the move is logged; outside test mode the file then moves
      there, keeping its access time `atime`. */
  function MoveEffect(s: Settings, w: World, p: string, atime: int, t: int): World {
    var w1 := TouchLog(s, EnsureFolder(w, DestinationFolder(s.downloads, p)), t);
    if s.testMode then w1
    else w1.(files := Relocate(w1.files, p, DestinationPath(s.downloads, p), atime))
  }

  /** In test mode `move_file` only creates the destination folder. */
  lemma MoveEffectInTestMode(s: Settings, w: World, p: string, atime: int, t: int)
    requires s.testMode
    ensures MoveEffect(s, w, p, atime, t) == EnsureFolder(w, DestinationFolder(s.downloads, p))
  {
  }

  /** What the deleting branch of `show_popup(p)` does: `send2trash` outside
      test mode, nothing in it. */
  function DeleteEffect(s: Settings, w: World, p: string): World {
    if s.testMode then w else w.(files := w.files - {p})
  }

  /** What one entry does to the filesystem, handled at time `t`: the
      deletion or the `Kept` message is logged first, then the file is
      trashed or moved. */
  function EntryEffect(s: Settings, w: World, e: Entry, fate: Fate, t: int): World {
    var p := FilePath(s, e);
    match fate
    case Ignored => w
    case Deleted => DeleteEffect(s, TouchLog(s, w, t), p)
    case KeptAndMoved => MoveEffect(s, TouchLog(s, w, t), p, e.atime, t)
    case Moved => MoveEffect(s, w, p, e.atime, t)
  }

  /** The filesystem after the first `|entries|` entries of the snapshot. */
  function RunWorld(s: Settings, clock: nat -> int, ask: string -> bool, w: World, entries: seq<Entry>): World
    decreases |entries|
  {
    if entries == [] then w
    else
      var n := |entries| - 1;
      var before := RunWorld(s, clock, ask, w, entries[..n]);
      EntryEffect(s, before, entries[n], FateOf(s, clock, ask, entries[n], n), clock(n))
  }

  /** The messages logged for the first `|entries|` entries of the snapshot. */
  function RunLog(s: Settings, clock: nat -> int, ask: string -> bool, entries: seq<Entry>): seq<Message>
    decreases |entries|
  {
    if entries == [] then []
    else
      var n := |entries| - 1;
      RunLog(s, clock, ask, entries[..n]) + EntryLog(s, entries[n], FateOf(s, clock, ask, entries[n], n))
  }

  /** Outside test mode a pass over a missing downloads folder ends in an
      exception: the error message is to be appended to a log file inside
      that very folder, and opening it fails. */
  predicate PassRaises(s: Settings, w: World) {
    !s.testMode && !Exists(w, s.downloads)
  }

  /** The filesystem after a whole pass: the start marker is logged at time
      `startTime`, the listing `snapshot` is read and run, and the completion
      marker is logged at time `endTime`. */
  function PassWorld(s: Settings, clock: nat -> int, ask: string -> bool, startTime: int, endTime: int,
                     w: World, snapshot: seq<Entry>): World {
    if !Exists(w, s.downloads) then w
    else TouchLog(s, RunWorld(s, clock, ask, TouchLog(s, w, startTime), snapshot), endTime)
  }

  /** Every message of a whole pass that reaches the console or the log
      file, in order: none when the pass raises. */
  function PassLog(s: Settings, clock: nat -> int, ask: string -> bool, w: World, snapshot: seq<Entry>): seq<Message> {
    if !Exists(w, s.downloads) then (if s.testMode then [Missing(s.downloads)] else [])
    else [Started] + RunLog(s, clock, ask, snapshot) + [Completed]
  }

  /** The console line `log_action` prints for a message. */
  function Echo(testMode: bool, message: string): string {
    if testMode then "[TEST MODE] " + message else message
  }

  /** The text `log_action` appends to the log file for a message. */
  function Record(stamp: string, message: string): string {
    "[" + stamp + "] " + message + "\n"
  }

  /** `f` applied to every element of `s`, together with its index. */
  function MapIndexed<A, B>(f: (nat, A) -> B, s: seq<A>): (r: seq<B>)
    ensures |r| == |s|
    decreases |s|
  {
    if s == [] then [] else MapIndexed(f, s[..|s| - 1]) + [f(|s| - 1, s[|s| - 1])]
  }

  /** The console lines of `messages`. */
  function Echoes(testMode: bool, messages: seq<Message>): seq<string> {
    MapIndexed((k: nat, m: Message) => Echo(testMode, m.Text()), messages)
  }

  /** The log records of `messages`, the `k`-th stamped with `stamp(k)`. */
  function Records(messages: seq<Message>, stamp: nat -> string): seq<string> {
    MapIndexed((k: nat, m: Message) => Record(stamp(k), m.Text()), messages)
  }

  /** What `os.scandir` guarantees of its listing: names are separator-free
      and distinct, and each regular file is in the filesystem with the
      access time the entry reports. */
  predicate SnapshotOf(s: Settings, snapshot: seq<Entry>, w: World) {
    && (forall i :: 0 <= i < |snapshot| ==> NoSep(snapshot[i].name))
    && (forall i, j :: 0 <= i < j < |snapshot| ==> snapshot[i].name != snapshot[j].name)
    && (forall i :: 0 <= i < |snapshot| && snapshot[i].isFile ==>
          FilePath(s, snapshot[i]) in w.files && w.files[FilePath(s, snapshot[i])] == snapshot[i].atime)
  }

  // ---------------------------------------------------------------------
  // Paths: sources, folders and destinations never coincide.

  /** The folder name holds no separator, and the destination is the folder
      name and the base name appended to the downloads prefix. */
  lemma DestinationShape(downloads: string, p: string)
    ensures NoSep(Subfolder(p))
    ensures DestinationFolder(downloads, p) == JoinPrefix(downloads) + Subfolder(p)
    ensures DestinationPath(downloads, p) == JoinPrefix(downloads) + (Subfolder(p) + "/" + Basename(p))
  {
    var c := Category(LowerAscii(SplitExt(p).1));
    CategoryIsLabel(LowerAscii(SplitExt(p).1));
    LabelNoSep(c);
    var sub := "Downloaded " + c;
    assert sub[0] == 'D';
    var folder := DestinationFolder(downloads, p);
    JoinSpec(downloads, sub);
    assert folder == JoinPrefix(downloads) + sub;
    DestinationKeepsName(downloads, p);
    var b := Basename(p);
    assert DestinationPath(downloads, p) == folder + "/" + b;
    assert JoinPrefix(downloads) + sub + "/" + b == JoinPrefix(downloads) + (sub + "/" + b);
  }

  /** "Downloaded <Label>" holds no separator. */
  lemma LabelNoSep(c: string)
    requires c in {"Images", "Music", "Videos", "Documents", "Others"}
    ensures NoSep("Downloaded " + c)
  {
  }

  /** A separator-free name never equals a text one level deeper. */
  lemma NotDeeper(pre: string, name: string, head: string, tail: string)
    requires NoSep(name)
    ensures pre + name != pre + (head + "/" + tail)
  {
    assert (pre + (head + "/" + tail))[|pre| + |head|] == '/';
    if |pre + name| == |pre + (head + "/" + tail)| {
      assert (pre + name)[|pre| + |head|] == name[|head|];
    }
  }

  /** A file straight inside the downloads folder is never a destination,
      which lies one level deeper. */
  lemma SourceIsNotDestination(downloads: string, name: string, p: string)
    requires NoSep(name)
    ensures Join(downloads, name) != DestinationPath(downloads, p)
  {
    DestinationShape(downloads, p);
    JoinSpec(downloads, name);
    assert Join(downloads, name) == JoinPrefix(downloads) + name;
    NotDeeper(JoinPrefix(downloads), name, Subfolder(p), Basename(p));
  }

  /** A destination folder is never a destination file. */
  lemma FolderIsNotDestination(downloads: string, p: string, q: string)
    ensures DestinationFolder(downloads, p) != DestinationPath(downloads, q)
  {
    DestinationShape(downloads, p);
    DestinationShape(downloads, q);
    NotDeeper(JoinPrefix(downloads), Subfolder(p), Subfolder(q), Basename(q));
  }

  /** Distinct names give distinct source paths. */
  lemma SourcesDistinct(downloads: string, a: string, b: string)
    requires NoSep(a) && NoSep(b) && a != b
    ensures Join(downloads, a) != Join(downloads, b)
  {
    var pre := JoinPrefix(downloads);
    JoinSpec(downloads, a);
    JoinSpec(downloads, b);
    assert Join(downloads, a) == pre + a;
    assert Join(downloads, b) == pre + b;
    assert (pre + a)[|pre|..] == a;
    assert (pre + b)[|pre|..] == b;
  }

  /** Distinct names give distinct destinations. */
  lemma DestinationsDistinct(downloads: string, a: string, b: string)
    requires NoSep(a) && NoSep(b) && a != b
    ensures DestinationPath(downloads, Join(downloads, a)) != DestinationPath(downloads, Join(downloads, b))
  {
    DestinationKeepsName(downloads, Join(downloads, a));
    DestinationKeepsName(downloads, Join(downloads, b));
    BasenameOfJoin(downloads, a);
    BasenameOfJoin(downloads, b);
  }

  // ---------------------------------------------------------------------
  // What a pass does to the filesystem.

  /** Paths of the regular files among `entries`. */
  function Sources(s: Settings, entries: seq<Entry>): set<string>
    decreases |entries|
  {
    if entries == [] then {}
    else
      var n := |entries| - 1;
      Sources(s, entries[..n]) + (if entries[n].isFile then {FilePath(s, entries[n])} else {})
  }

  /** Where the moved files among `entries` arrive, with their access times. */
  function Placed(s: Settings, clock: nat -> int, ask: string -> bool, entries: seq<Entry>): map<string, int>
    decreases |entries|
  {
    if entries == [] then map[]
    else
      var n := |entries| - 1;
      var before := Placed(s, clock, ask, entries[..n]);
      if FateOf(s, clock, ask, entries[n], n).Moves()
      then before[DestinationPath(s.downloads, FilePath(s, entries[n])) := entries[n].atime]
      else before
  }

  /** The destination folders of the moved files among `entries`. */
  function Folders(s: Settings, clock: nat -> int, ask: string -> bool, entries: seq<Entry>): set<string>
    decreases |entries|
  {
    if entries == [] then {}
    else
      var n := |entries| - 1;
      Folders(s, clock, ask, entries[..n]) +
        (if FateOf(s, clock, ask, entries[n], n).Moves()
         then {DestinationFolder(s.downloads, FilePath(s, entries[n]))} else {})
  }

  /** `k` is where `move_file` sends some path. */
  ghost predicate IsDestination(downloads: string, k: string) {
    exists p :: k == DestinationPath(downloads, p)
  }

  /** Every path in `Sources` is the path of a regular-file entry. */
  lemma {:induction false} SourcesAreFiles(s: Settings, entries: seq<Entry>, k: string)
    ensures k in Sources(s, entries) <==>
              exists j :: 0 <= j < |entries| && entries[j].isFile && k == FilePath(s, entries[j])
  {
    if entries != [] {
      var n := |entries| - 1;
      SourcesAreFiles(s, entries[..n], k);
      if k in Sources(s, entries) && k !in Sources(s, entries[..n]) {
        assert entries[n].isFile && k == FilePath(s, entries[n]);
      }
      if exists j :: 0 <= j < |entries| && entries[j].isFile && k == FilePath(s, entries[j]) {
        var j :| 0 <= j < |entries| && entries[j].isFile && k == FilePath(s, entries[j]);
        if j < n {
          assert entries[..n][j] == entries[j];
        }
      }
    }
  }

  /** Every key of `Placed` is the destination of an entry of `entries`. */
  lemma {:induction false} PlacedAreDestinations(s: Settings, clock: nat -> int, ask: string -> bool,
                                                 entries: seq<Entry>, k: string)
    requires k in Placed(s, clock, ask, entries)
    ensures exists j :: 0 <= j < |entries| && k == DestinationPath(s.downloads, FilePath(s, entries[j]))
  {
    var n := |entries| - 1;
    var e := entries[n];
    if k == DestinationPath(s.downloads, FilePath(s, e)) {
    } else {
      PlacedAreDestinations(s, clock, ask, entries[..n], k);
      var j :| 0 <= j < n && k == DestinationPath(s.downloads, FilePath(s, entries[..n][j]));
      assert entries[..n][j] == entries[j];
    }
  }

  /** Every file present after running `entries` was present at the start,
      is a destination, or is the log file. */
  lemma {:induction false} FilesOrigin(s: Settings, clock: nat -> int, ask: string -> bool, w: World,
                                       entries: seq<Entry>, k: string)
    requires k in RunWorld(s, clock, ask, w, entries).files
    ensures k in w.files || IsDestination(s.downloads, k) || k == LogPath(s)
  {
    if entries != [] {
      var n := |entries| - 1;
      var e := entries[n];
      var dest := DestinationPath(s.downloads, FilePath(s, e));
      if k != dest && k != LogPath(s) {
        FilesOrigin(s, clock, ask, w, entries[..n], k);
      }
    }
  }

  /** Directories are only ever added, and only destination folders are. */
  lemma {:induction false} DirsGrow(s: Settings, clock: nat -> int, ask: string -> bool, w: World, entries: seq<Entry>)
    ensures w.dirs <= RunWorld(s, clock, ask, w, entries).dirs <= w.dirs + Folders(s, clock, ask, entries)
  {
    if entries != [] {
      var n := |entries| - 1;
      DirsGrow(s, clock, ask, w, entries[..n]);
      EntryDirs(s, RunWorld(s, clock, ask, w, entries[..n]), entries[n], FateOf(s, clock, ask, entries[n], n), clock(n));
    }
  }

  /** One entry adds at most its destination folder, and only when it
      moves. */
  lemma EntryDirs(s: Settings, w: World, e: Entry, fate: Fate, t: int)
    ensures var after := EntryEffect(s, w, e, fate, t).dirs;
            w.dirs <= after <= w.dirs + (if fate.Moves() then {DestinationFolder(s.downloads, FilePath(s, e))} else {})
  {
  }

  /** In test mode no file moves or disappears, and exactly the missing
      destination folders are created (a folder with a file in its place is
      not). */
  lemma {:induction false} TestModeWorld(s: Settings, clock: nat -> int, ask: string -> bool, w: World, entries: seq<Entry>)
    requires s.testMode
    ensures RunWorld(s, clock, ask, w, entries).files == w.files
    ensures RunWorld(s, clock, ask, w, entries).dirs == w.dirs + (Folders(s, clock, ask, entries) - w.files.Keys)
  {
    if entries != [] {
      TestModeWorld(s, clock, ask, w, entries[..|entries| - 1]);
    }
  }

  /** A file straight inside the downloads folder is never among the
      destinations of `entries`. */
  lemma SourceNotPlaced(s: Settings, clock: nat -> int, ask: string -> bool, entries: seq<Entry>, name: string)
    requires NoSep(name)
    ensures Join(s.downloads, name) !in Placed(s, clock, ask, entries)
  {
    if Join(s.downloads, name) in Placed(s, clock, ask, entries) {
      PlacedAreDestinations(s, clock, ask, entries, Join(s.downloads, name));
      var j :| 0 <= j < |entries| && Join(s.downloads, name) == DestinationPath(s.downloads, FilePath(s, entries[j]));
      SourceIsNotDestination(s.downloads, name, FilePath(s, entries[j]));
    }
  }

  /** Removing a key that only the left operand has, then adding one. */
  lemma MoveInUnion(left: map<string, int>, right: map<string, int>, p: string, dest: string, atime: int)
    requires p !in right
    ensures Relocate(left + right, p, dest, atime) == (left - {p}) + right[dest := atime]
  {
  }

  /** Removing a key that only the left operand has. */
  lemma DeleteInUnion(left: map<string, int>, right: map<string, int>, p: string)
    requires p !in right
    ensures (left + right) - {p} == (left - {p}) + right
  {
  }

  /** The log file is never a destination. */
  lemma LogIsNotDestination(s: Settings, p: string)
    ensures LogPath(s) != DestinationPath(s.downloads, p)
  {
    LogFileNameIsPlain(LogFileName);
    SourceIsNotDestination(s.downloads, LogFileName, p);
  }

  /** The files other than the log file after one entry in live mode, from
      those before it. */
  lemma LiveEntryFiles(s: Settings, w: World, e: Entry, fate: Fate, t: int)
    requires !s.testMode
    ensures var p := FilePath(s, e);
            var rest := w.files - {LogPath(s)};
            EntryEffect(s, w, e, fate, t).files - {LogPath(s)} ==
              match fate
              case Ignored => rest
              case Deleted => rest - {p}
              case _ => Relocate(rest, p, DestinationPath(s.downloads, p), e.atime)
  {
    var p := FilePath(s, e);
    var dest := DestinationPath(s.downloads, p);
    var log := LogPath(s);
    LogIsNotDestination(s, p);
    var touched := TouchLog(s, w, t).files;
    assert touched - {log} == w.files - {log};
    if fate.Moves() {
      var moved := EnsureFolder(if fate == KeptAndMoved then TouchLog(s, w, t) else w, DestinationFolder(s.downloads, p));
      var files := TouchLog(s, moved, t).files;
      assert files - {log} == w.files - {log};
      RelocateElsewhere(files, w.files, log, p, dest, e.atime);
    } else if fate == Deleted {
      assert (touched - {p}) - {log} == (w.files - {log}) - {p};
    }
  }

  /** Moving a file does not involve a key other than its source and its
      destination. */
  lemma RelocateElsewhere(m: map<string, int>, m': map<string, int>, k: string, p: string, dest: string, atime: int)
    requires k != dest && m - {k} == m' - {k}
    ensures Relocate(m, p, dest, atime) - {k} == Relocate(m' - {k}, p, dest, atime)
  {
    assert Relocate(m, p, dest, atime) - {k} == ((m - {k}) - {p})[dest := atime];
  }

  /** Taking away a set of keys and then one more key. */
  lemma MinusMore(m: map<string, int>, keys: set<string>, p: string)
    ensures (m - keys) - {p} == m - (keys + {p})
  {
  }

  /** One more entry keeps the live-mode description of the files other
      than the log file. */
  lemma LiveFilesStep(s: Settings, clock: nat -> int, ask: string -> bool, w: World, entries: seq<Entry>)
    requires !s.testMode && entries != []
    requires NoSep(entries[|entries| - 1].name)
    requires var prefix := entries[..|entries| - 1];
             RunWorld(s, clock, ask, w, prefix).files - {LogPath(s)} ==
               ((w.files - {LogPath(s)}) - Sources(s, prefix)) + Placed(s, clock, ask, prefix)
    ensures RunWorld(s, clock, ask, w, entries).files - {LogPath(s)} ==
              ((w.files - {LogPath(s)}) - Sources(s, entries)) + Placed(s, clock, ask, entries)
  {
    var n := |entries| - 1;
    var prefix := entries[..n];
    var e := entries[n];
    var p := FilePath(s, e);
    var fate := FateOf(s, clock, ask, e, n);
    var rest := w.files - {LogPath(s)};
    var sources := Sources(s, prefix);
    var before := Placed(s, clock, ask, prefix);
    var run := RunWorld(s, clock, ask, w, prefix);
    SourceNotPlaced(s, clock, ask, prefix, e.name);
    LiveEntryFiles(s, run, e, fate, clock(n));
    assert RunWorld(s, clock, ask, w, entries) == EntryEffect(s, run, e, fate, clock(n));
    if fate.Moves() {
      var dest := DestinationPath(s.downloads, p);
      assert Sources(s, entries) == sources + {p};
      assert Placed(s, clock, ask, entries) == before[dest := e.atime];
      MoveInUnion(rest - sources, before, p, dest, e.atime);
      MinusMore(rest, sources, p);
    } else if fate == Deleted {
      assert Sources(s, entries) == sources + {p};
      assert Placed(s, clock, ask, entries) == before;
      DeleteInUnion(rest - sources, before, p);
      MinusMore(rest, sources, p);
    } else {
      assert Sources(s, entries) == sources;
      assert Placed(s, clock, ask, entries) == before;
    }
  }

  /** In live mode the files after the run, the log file aside, are those at
      the start, minus every regular file of the listing, plus the moved
      files at their destinations. */
  lemma {:induction false} LiveFiles(s: Settings, clock: nat -> int, ask: string -> bool, w: World, entries: seq<Entry>)
    requires !s.testMode
    requires forall i :: 0 <= i < |entries| ==> NoSep(entries[i].name)
    ensures RunWorld(s, clock, ask, w, entries).files - {LogPath(s)} ==
              ((w.files - {LogPath(s)}) - Sources(s, entries)) + Placed(s, clock, ask, entries)
  {
    if entries != [] {
      var n := |entries| - 1;
      var prefix := entries[..n];
      assert forall i :: 0 <= i < n ==> prefix[i] == entries[i];
      LiveFiles(s, clock, ask, w, prefix);
      LiveFilesStep(s, clock, ask, w, entries);
    }
  }

  /** A whole live pass over an existing folder: the log file is there at
      the end, and the other files are those at the start, minus every
      regular file of the listing, plus the moved files at their
      destinations. */
  lemma LivePass(s: Settings, clock: nat -> int, ask: string -> bool, startTime: int, endTime: int,
                 w: World, snapshot: seq<Entry>)
    requires !s.testMode && Exists(w, s.downloads)
    requires forall i :: 0 <= i < |snapshot| ==> NoSep(snapshot[i].name)
    ensures var after := PassWorld(s, clock, ask, startTime, endTime, w, snapshot).files;
            && LogPath(s) in after
            && after - {LogPath(s)} ==
                 ((w.files - {LogPath(s)}) - Sources(s, snapshot)) + Placed(s, clock, ask, snapshot)
  {
    var log := LogPath(s);
    var w1 := TouchLog(s, w, startTime);
    assert w1.files - {log} == w.files - {log};
    LiveFiles(s, clock, ask, w1, snapshot);
    var run := RunWorld(s, clock, ask, w1, snapshot);
    assert TouchLog(s, run, endTime).files - {log} == run.files - {log};
  }

  /** With distinct names, a moved file is at its destination afterwards and
      a file that did not move has no entry in `Placed`. */
  lemma {:induction false} PlacedAt(s: Settings, clock: nat -> int, ask: string -> bool, entries: seq<Entry>, i: int)
    requires forall j :: 0 <= j < |entries| ==> NoSep(entries[j].name)
    requires forall j, k :: 0 <= j < k < |entries| ==> entries[j].name != entries[k].name
    requires 0 <= i < |entries|
    ensures var dest := DestinationPath(s.downloads, FilePath(s, entries[i]));
            var placed := Placed(s, clock, ask, entries);
            if FateOf(s, clock, ask, entries[i], i).Moves()
            then dest in placed && placed[dest] == entries[i].atime
            else dest !in placed
  {
    var n := |entries| - 1;
    var prefix := entries[..n];
    var e := entries[n];
    PlacedStep(s, clock, ask, entries);
    if i < n {
      assert forall j :: 0 <= j < n ==> prefix[j] == entries[j];
      PlacedAt(s, clock, ask, prefix, i);
      DestinationsDistinct(s.downloads, entries[i].name, e.name);
    } else {
      LastNotPlacedBefore(s, clock, ask, entries);
    }
  }

  /** With distinct names, the destination of the last entry is not among
      those of the entries before it. */
  lemma LastNotPlacedBefore(s: Settings, clock: nat -> int, ask: string -> bool, entries: seq<Entry>)
    requires forall j :: 0 <= j < |entries| ==> NoSep(entries[j].name)
    requires forall j, k :: 0 <= j < k < |entries| ==> entries[j].name != entries[k].name
    requires entries != []
    ensures var n := |entries| - 1;
            DestinationPath(s.downloads, FilePath(s, entries[n])) !in Placed(s, clock, ask, entries[..n])
  {
    var n := |entries| - 1;
    var prefix := entries[..n];
    var e := entries[n];
    forall k | k in Placed(s, clock, ask, prefix)
      ensures k != DestinationPath(s.downloads, FilePath(s, e))
    {
      PlacedAreDestinations(s, clock, ask, prefix, k);
      var j :| 0 <= j < n && k == DestinationPath(s.downloads, FilePath(s, prefix[j]));
      DestinationsDistinct(s.downloads, prefix[j].name, e.name);
    }
  }

  /** `Placed` gains the destination of the last entry when that entry moves. */
  lemma PlacedStep(s: Settings, clock: nat -> int, ask: string -> bool, entries: seq<Entry>)
    requires entries != []
    ensures var n := |entries| - 1;
            var before := Placed(s, clock, ask, entries[..n]);
            Placed(s, clock, ask, entries) ==
              if FateOf(s, clock, ask, entries[n], n).Moves()
              then before[DestinationPath(s.downloads, FilePath(s, entries[n])) := entries[n].atime]
              else before
  {
  }

  /** The files of the downloads folder that a live pass examines: every
      regular file of the listing leaves its place, except that a log file
      is there again at the end; a moved one arrives at its destination with
      its access time; after a deletion whatever was at the destination
      before is still there. The listing is read after the start marker. */
  lemma LiveFileFate(s: Settings, clock: nat -> int, ask: string -> bool, startTime: int, endTime: int,
                     w: World, snapshot: seq<Entry>, i: int)
    requires !s.testMode && Exists(w, s.downloads) && SnapshotOf(s, snapshot, TouchLog(s, w, startTime))
    requires 0 <= i < |snapshot| && snapshot[i].isFile
    ensures var p := FilePath(s, snapshot[i]);
            var dest := DestinationPath(s.downloads, p);
            var after := PassWorld(s, clock, ask, startTime, endTime, w, snapshot).files;
            && (p in after <==> p == LogPath(s))
            && (FateOf(s, clock, ask, snapshot[i], i).Moves() ==> dest in after && after[dest] == snapshot[i].atime)
            && (FateOf(s, clock, ask, snapshot[i], i) == Deleted ==>
                  (dest in after <==> dest in w.files) && (dest in w.files ==> after[dest] == w.files[dest]))
  {
    var e := snapshot[i];
    var p := FilePath(s, e);
    var dest := DestinationPath(s.downloads, p);
    var log := LogPath(s);
    var after := PassWorld(s, clock, ask, startTime, endTime, w, snapshot).files;
    LivePass(s, clock, ask, startTime, endTime, w, snapshot);
    LogIsNotDestination(s, p);
    SourcesAreFiles(s, snapshot, p);
    SourceNotPlaced(s, clock, ask, snapshot, e.name);
    PlacedAt(s, clock, ask, snapshot, i);
    if dest in Sources(s, snapshot) {
      SourcesAreFiles(s, snapshot, dest);
      var j :| 0 <= j < |snapshot| && snapshot[j].isFile && dest == FilePath(s, snapshot[j]);
      SourceIsNotDestination(s.downloads, snapshot[j].name, p);
    }
    assert p != log ==> p !in after - {log};
    assert dest in after <==> dest in after - {log};
  }

  /** The listing names every regular file straight inside the downloads
      folder, as `os.scandir` does. */
  ghost predicate ListsEveryFile(s: Settings, snapshot: seq<Entry>, w: World) {
    forall name :: NoSep(name) && Join(s.downloads, name) in w.files ==>
      exists i :: 0 <= i < |snapshot| && snapshot[i].isFile && snapshot[i].name == name
  }

  /** Outside test mode the start marker creates the log file before the
      folder is listed, so the pass examines its own log file: unless the
      user trashes it, the log file is filed as
      `Downloaded Documents/download_organizer_log.txt`, over whatever an
      earlier pass filed there, and a fresh log file is in the downloads
      folder at the end. */
  lemma LogFileIsFiled(s: Settings, clock: nat -> int, ask: string -> bool, startTime: int, endTime: int,
                       w: World, snapshot: seq<Entry>)
    requires !s.testMode && Exists(w, s.downloads)
    requires SnapshotOf(s, snapshot, TouchLog(s, w, startTime)) && ListsEveryFile(s, snapshot, TouchLog(s, w, startTime))
    ensures var log := LogPath(s);
            var after := PassWorld(s, clock, ask, startTime, endTime, w, snapshot).files;
            && DestinationPath(s.downloads, log) == Join(s.downloads, "Downloaded Documents") + "/" + LogFileName
            && log in after
            && exists i :: 0 <= i < |snapshot| && snapshot[i].isFile && FilePath(s, snapshot[i]) == log &&
                  (FateOf(s, clock, ask, snapshot[i], i).Moves() ==>
                    DestinationPath(s.downloads, log) in after &&
                    after[DestinationPath(s.downloads, log)] == TouchLog(s, w, startTime).files[log])
  {
    var log := LogPath(s);
    var w1 := TouchLog(s, w, startTime);
    LogFileNameIsPlain(LogFileName);
    assert log in w1.files;
    var i :| 0 <= i < |snapshot| && snapshot[i].isFile && snapshot[i].name == LogFileName;
    assert FilePath(s, snapshot[i]) == log;
    LiveFileFate(s, clock, ask, startTime, endTime, w, snapshot, i);
    LogDestination(s);
  }

  /** The log file's destination, spelled out. */
  lemma LogDestination(s: Settings)
    ensures DestinationPath(s.downloads, LogPath(s)) == Join(s.downloads, "Downloaded Documents") + "/" + LogFileName
  {
    var log := LogPath(s);
    LogFileNameIsPlain(LogFileName);
    LogFileGoesToDocuments(s.downloads, LogFileName);
    DestinationKeepsName(s.downloads, log);
    BasenameOfJoin(s.downloads, LogFileName);
    assert DestinationPath(s.downloads, log) == DestinationFolder(s.downloads, log) + "/" + Basename(log);
  }

  /** Creating a folder is a no-op the second time, never touches files, and
      afterwards something exists at the folder's path. */
  lemma EnsureFolderIdempotent(w: World, folder: string)
    ensures var w1 := EnsureFolder(w, folder);
            Exists(w1, folder) && w1.files == w.files && w.dirs <= w1.dirs &&
            EnsureFolder(w1, folder) == w1
  {
  }

  /** In test mode a pass leaves every file where it was and adds exactly the
      missing destination folders of the files it would move. */
  lemma TestModePass(s: Settings, clock: nat -> int, ask: string -> bool, startTime: int, endTime: int,
                      w: World, snapshot: seq<Entry>)
    requires s.testMode
    ensures var after := PassWorld(s, clock, ask, startTime, endTime, w, snapshot);
            after.files == w.files &&
            after.dirs == if Exists(w, s.downloads)
                          then w.dirs + (Folders(s, clock, ask, snapshot) - w.files.Keys)
                          else w.dirs
  {
    TestModeWorld(s, clock, ask, w, snapshot);
  }

  /** A second simulated pass, given the same listing, clock and answers,
      changes nothing and logs the same messages. The second listing is
      assumed to be the first one: the destination folders the first pass
      created are not added to it. */
  lemma SimulatedPassIsRepeatable(s: Settings, clock: nat -> int, ask: string -> bool, startTime: int, endTime: int,
                                  w: World, snapshot: seq<Entry>)
    requires s.testMode
    ensures var w1 := PassWorld(s, clock, ask, startTime, endTime, w, snapshot);
            PassWorld(s, clock, ask, startTime, endTime, w1, snapshot) == w1 &&
            PassLog(s, clock, ask, w1, snapshot) == PassLog(s, clock, ask, w, snapshot)
  {
    var w1 := PassWorld(s, clock, ask, startTime, endTime, w, snapshot);
    if Exists(w, s.downloads) {
      TestModeWorld(s, clock, ask, w, snapshot);
      TestModeWorld(s, clock, ask, w1, snapshot);
      assert Exists(w1, s.downloads);
    }
  }

  /** A prefix of a sequence stays a prefix once more is appended. */
  lemma PrefixOfConcat<T>(a: seq<T>, b: seq<T>, x: seq<T>)
    requires a <= b
    ensures a <= b + x
  {
    assert (b + x)[..|a|] == b[..|a|];
  }

  /** The log of the first `k` entries is the start of the log of all. */
  lemma {:induction false} RunLogPrefix(s: Settings, clock: nat -> int, ask: string -> bool, entries: seq<Entry>, k: int)
    requires 0 <= k <= |entries|
    ensures RunLog(s, clock, ask, entries[..k]) <= RunLog(s, clock, ask, entries)
    decreases |entries|
  {
    if k < |entries| {
      var n := |entries| - 1;
      assert entries[..n][..k] == entries[..k];
      RunLogPrefix(s, clock, ask, entries[..n], k);
      RunLogStep(s, clock, ask, entries, n);
      assert entries[..n + 1] == entries;
      PrefixOfConcat(RunLog(s, clock, ask, entries[..k]), RunLog(s, clock, ask, entries[..n]),
                     EntryLog(s, entries[n], FateOf(s, clock, ask, entries[n], n)));
    } else {
      assert entries[..k] == entries;
    }
  }

  /** The messages of entry `i` sit in the log of all entries right after
      those of the entries before it. */
  lemma EntryLogInPlace(s: Settings, clock: nat -> int, ask: string -> bool, entries: seq<Entry>, i: int)
    requires 0 <= i < |entries|
    ensures var m := EntryLog(s, entries[i], FateOf(s, clock, ask, entries[i], i));
            var log := RunLog(s, clock, ask, entries);
            var at := |RunLog(s, clock, ask, entries[..i])|;
            at + |m| <= |log| && log[at..at + |m|] == m
  {
    RunLogStep(s, clock, ask, entries, i);
    RunLogPrefix(s, clock, ask, entries, i + 1);
    SliceOfPrefix(RunLog(s, clock, ask, entries), RunLog(s, clock, ask, entries[..i]),
                  EntryLog(s, entries[i], FateOf(s, clock, ask, entries[i], i)));
  }

  /** Running one more entry appends its messages. */
  lemma RunLogStep(s: Settings, clock: nat -> int, ask: string -> bool, entries: seq<Entry>, i: int)
    requires 0 <= i < |entries|
    ensures RunLog(s, clock, ask, entries[..i + 1]) ==
              RunLog(s, clock, ask, entries[..i]) + EntryLog(s, entries[i], FateOf(s, clock, ask, entries[i], i))
  {
    assert entries[..i + 1][..i] == entries[..i];
  }

  /** The part of a sequence that follows a prefix `before` of the prefix
      `before + m` is `m`. */
  lemma SliceOfPrefix<T>(log: seq<T>, before: seq<T>, m: seq<T>)
    requires before + m <= log
    ensures |before| + |m| <= |log| && log[|before|..|before| + |m|] == m
  {
    assert log[..|before| + |m|] == before + m;
    assert log[|before|..|before| + |m|] == (before + m)[|before|..];
  }

  /** Entry `i` contributes its messages right after those of the entries
      before it: nothing for a directory; `Moved` for a file that has not
      expired; `Deleted` alone for an expired file the user deletes; `Kept`
      then `Moved` for one the user keeps. */
  lemma EntryMessagesInOrder(s: Settings, clock: nat -> int, ask: string -> bool, entries: seq<Entry>, i: int)
    requires 0 <= i < |entries|
    ensures var e := entries[i];
            var p := FilePath(s, e);
            var moved := MovedFile(p, DestinationPath(s.downloads, p));
            var m := if !e.isFile then []
                     else if !Expired(clock(i), e.atime, s.threshold) then [moved]
                     else if ask(p) then [DeletedFile(p)]
                     else [KeptFile(p), moved];
            var log := RunLog(s, clock, ask, entries);
            var at := |RunLog(s, clock, ask, entries[..i])|;
            at + |m| <= |log| && log[at..at + |m|] == m
  {
    EntryLogInPlace(s, clock, ask, entries, i);
    EntryLogByCase(s, clock, ask, entries[i], i);
  }

  /** The messages of one entry, case by case. */
  lemma EntryLogByCase(s: Settings, clock: nat -> int, ask: string -> bool, e: Entry, i: nat)
    ensures var p := FilePath(s, e);
            var moved := MovedFile(p, DestinationPath(s.downloads, p));
            EntryLog(s, e, FateOf(s, clock, ask, e, i)) ==
              if !e.isFile then []
              else if !Expired(clock(i), e.atime, s.threshold) then [moved]
              else if ask(p) then [DeletedFile(p)]
              else [KeptFile(p), moved]
  {
  }

  /** Only the markers read like the markers: no other message has the text
      of either. */
  lemma MarkerTexts(m: Message)
    ensures m.Text() == Started.Text() <==> m == Started
    ensures m.Text() == Completed.Text() <==> m == Completed
  {
    var t := m.Text();
    assert Started.Text()[0] == '\n' && Completed.Text()[0] == '=';
    match m
    case Missing(_) => assert t[0] == 'E';
    case DeletedFile(_) => assert t[0] == 'D';
    case KeptFile(_) => assert t[0] == 'K';
    case MovedFile(_, _) => assert t[0] == 'M';
    case _ =>
  }

  /** No entry logs a marker. */
  lemma {:induction false} RunLogHasNoMarkers(s: Settings, clock: nat -> int, ask: string -> bool, entries: seq<Entry>)
    ensures Started !in RunLog(s, clock, ask, entries)
    ensures Completed !in RunLog(s, clock, ask, entries)
    decreases |entries|
  {
    if entries != [] {
      var n := |entries| - 1;
      RunLogHasNoMarkers(s, clock, ask, entries[..n]);
      RunLogStep(s, clock, ask, entries, n);
      assert entries[..n + 1] == entries;
      var m := EntryLog(s, entries[n], FateOf(s, clock, ask, entries[n], n));
      EntryLogHasNoMarkers(s, entries[n], FateOf(s, clock, ask, entries[n], n));
      NotInConcat(Started, RunLog(s, clock, ask, entries[..n]), m);
      NotInConcat(Completed, RunLog(s, clock, ask, entries[..n]), m);
    }
  }

  /** The messages of one entry are never markers. */
  lemma EntryLogHasNoMarkers(s: Settings, e: Entry, fate: Fate)
    ensures Started !in EntryLog(s, e, fate) && Completed !in EntryLog(s, e, fate)
  {
  }

  /** What is in neither part is not in the whole. */
  lemma NotInConcat<T>(x: T, a: seq<T>, b: seq<T>)
    requires x !in a && x !in b
    ensures x !in a + b
  {
  }

  /** A pass over an existing folder logs the start marker first, the
      completion marker last, and neither in between. */
  lemma LogFraming(s: Settings, clock: nat -> int, ask: string -> bool, w: World, snapshot: seq<Entry>)
    requires Exists(w, s.downloads)
    ensures var log := PassLog(s, clock, ask, w, snapshot);
            |log| >= 2 && log[0] == Started && log[|log| - 1] == Completed &&
            forall k :: 0 < k < |log| - 1 ==> log[k] != Started && log[k] != Completed
  {
    var run := RunLog(s, clock, ask, snapshot);
    RunLogHasNoMarkers(s, clock, ask, snapshot);
    var log := PassLog(s, clock, ask, w, snapshot);
    forall k | 0 < k < |log| - 1 ensures log[k] != Started && log[k] != Completed {
      assert log[k] == run[k - 1];
    }
  }

  /** Without the downloads folder a pass changes nothing and logs no
      marker: in test mode it prints the one error message; outside it,
      it raises before anything is printed or written. */
  lemma MissingFolderPass(s: Settings, clock: nat -> int, ask: string -> bool, startTime: int, endTime: int,
                          w: World, snapshot: seq<Entry>)
    requires !Exists(w, s.downloads)
    ensures var log := PassLog(s, clock, ask, w, snapshot);
            && PassWorld(s, clock, ask, startTime, endTime, w, snapshot) == w
            && Started !in log && Completed !in log
            && (PassRaises(s, w) <==> !s.testMode)
            && (s.testMode ==> |log| == 1 && log[0].Text()[..5] == "ERROR")
            && (!s.testMode ==> log == [])
  {
  }

  // ---------------------------------------------------------------------
  // Facts the imperative pass relies on.

  /** Mapping one more element appends its image, at its index. */
  lemma MapIndexedAppend<A, B>(f: (nat, A) -> B, s: seq<A>, x: A)
    ensures MapIndexed(f, s + [x]) == MapIndexed(f, s) + [f(|s|, x)]
  {
    assert (s + [x])[..|s|] == s;
  }

  /** Mapping `a + b` maps `a`, then maps `b` with indices counted on from
      `|a|` (`g` is `f` with its index shifted by `|a|`). */
  lemma {:induction false} MapIndexedConcat<A, B>(f: (nat, A) -> B, g: (nat, A) -> B, a: seq<A>, b: seq<A>)
    requires forall k: nat, x: A :: g(k, x) == f(|a| + k, x)
    ensures MapIndexed(f, a + b) == MapIndexed(f, a) + MapIndexed(g, b)
    decreases |b|
  {
    if b == [] {
      assert a + b == a;
    } else {
      var n := |b| - 1;
      assert (a + b)[..|a| + n] == a + b[..n] && (a + b)[|a| + n] == b[n];
      MapIndexedConcat(f, g, a, b[..n]);
      assert g(n, b[n]) == f(|a| + n, b[n]);
    }
  }

  /** Logging one more message adds one console line and leaves the earlier
      ones as they were. */
  lemma EchoesAppend(testMode: bool, messages: seq<Message>, m: Message)
    ensures Echoes(testMode, messages + [m]) == Echoes(testMode, messages) + [Echo(testMode, m.Text())]
  {
    MapIndexedAppend((k: nat, m: Message) => Echo(testMode, m.Text()), messages, m);
  }

  /** Logging one more message appends one record, stamped with its position
      in the pass, and leaves the earlier records as they were. */
  lemma RecordsAppend(messages: seq<Message>, m: Message, stamp: nat -> string)
    ensures Records(messages + [m], stamp) == Records(messages, stamp) + [Record(stamp(|messages|), m.Text())]
  {
    MapIndexedAppend((k: nat, m: Message) => Record(stamp(k), m.Text()), messages, m);
  }

  /** Every regular file from entry `i` on is still in place with the access
      time the listing reported. */
  ghost predicate Pending(s: Settings, snapshot: seq<Entry>, i: nat, w: World) {
    forall j :: i <= j < |snapshot| && snapshot[j].isFile ==>
      FilePath(s, snapshot[j]) in w.files && w.files[FilePath(s, snapshot[j])] == snapshot[j].atime
  }

  /** An entry leaves alone every path other than its own, its destination
      and a missing log file. */
  lemma EntryEffectElsewhere(s: Settings, w: World, e: Entry, fate: Fate, t: int, q: string)
    requires q != FilePath(s, e) && q != DestinationPath(s.downloads, FilePath(s, e))
    requires q != LogPath(s) || q in w.files
    ensures var after := EntryEffect(s, w, e, fate, t).files;
            (q in after <==> q in w.files) && (q in w.files ==> after[q] == w.files[q])
  {
  }

  /** Handling entry `i` leaves the files of the later entries in place. */
  lemma PendingStep(s: Settings, clock: nat -> int, ask: string -> bool, snapshot: seq<Entry>, i: int, w: World)
    requires forall j :: 0 <= j < |snapshot| ==> NoSep(snapshot[j].name)
    requires forall j, k :: 0 <= j < k < |snapshot| ==> snapshot[j].name != snapshot[k].name
    requires 0 <= i < |snapshot| && Pending(s, snapshot, i, w)
    ensures Pending(s, snapshot, i + 1, EntryEffect(s, w, snapshot[i], FateOf(s, clock, ask, snapshot[i], i), clock(i)))
  {
    var e := snapshot[i];
    var fate := FateOf(s, clock, ask, e, i);
    forall j | i + 1 <= j < |snapshot| && snapshot[j].isFile
      ensures var q := FilePath(s, snapshot[j]);
              var after := EntryEffect(s, w, e, fate, clock(i)).files;
              q in after && after[q] == snapshot[j].atime
    {
      var q := FilePath(s, snapshot[j]);
      SourcesDistinct(s.downloads, snapshot[j].name, e.name);
      SourceIsNotDestination(s.downloads, snapshot[j].name, FilePath(s, e));
      EntryEffectElsewhere(s, w, e, fate, clock(i), q);
    }
  }

  /** An entry never removes a directory. */
  lemma EntryKeepsDirs(s: Settings, w: World, e: Entry, fate: Fate, t: int)
    ensures w.dirs <= EntryEffect(s, w, e, fate, t).dirs
  {
  }

  /** Running one more entry applies that entry's effect and appends its
      messages. */
  lemma RunStep(s: Settings, clock: nat -> int, ask: string -> bool, w: World, snapshot: seq<Entry>, i: int)
    requires 0 <= i < |snapshot|
    ensures var fate := FateOf(s, clock, ask, snapshot[i], i);
            && RunWorld(s, clock, ask, w, snapshot[..i + 1]) ==
                 EntryEffect(s, RunWorld(s, clock, ask, w, snapshot[..i]), snapshot[i], fate, clock(i))
            && RunLog(s, clock, ask, snapshot[..i + 1]) ==
                 RunLog(s, clock, ask, snapshot[..i]) + EntryLog(s, snapshot[i], fate)
  {
    assert snapshot[..i + 1][..i] == snapshot[..i];
  }

  /** The stamps of messages logged from position `offset` on. */
  function Shift(stamp: nat -> string, offset: nat): nat -> string {
    (k: nat) => stamp(offset + k)
  }

  /** What the log file receives for `messages`: nothing in test mode. */
  function FileRecords(testMode: bool, messages: seq<Message>, stamp: nat -> string): seq<string> {
    if testMode then [] else Records(messages, stamp)
  }

  /** Indexing a one-element sequence applies the function at index 0. */
  lemma MapIndexedOne<A, B>(f: (nat, A) -> B, x: A)
    ensures MapIndexed(f, [x]) == [f(0, x)]
  {
    assert [x][..0] == [];
  }

  /** The lines of one logged message. */
  lemma LogOne(testMode: bool, m: Message, stamp: nat -> string, at: nat)
    ensures Echoes(testMode, [m]) == [Echo(testMode, m.Text())]
    ensures FileRecords(testMode, [m], Shift(stamp, at)) == if testMode then [] else [Record(stamp(at), m.Text())]
  {
    MapIndexedOne((k: nat, m: Message) => Echo(testMode, m.Text()), m);
    var shifted := Shift(stamp, at);
    MapIndexedOne((k: nat, m: Message) => Record(shifted(k), m.Text()), m);
  }

  /** The lines of one more message logged after `earlier`, which grew the
      console from `console` and the log from `records`. */
  lemma LogAppend(testMode: bool, earlier: seq<Message>, m: Message, stamp: nat -> string, at: nat,
                  console: seq<string>, records: seq<string>)
    ensures console + Echoes(testMode, earlier + [m]) ==
              (console + Echoes(testMode, earlier)) + [Echo(testMode, m.Text())]
    ensures records + FileRecords(testMode, earlier + [m], Shift(stamp, at)) ==
              (records + FileRecords(testMode, earlier, Shift(stamp, at))) +
              (if testMode then [] else [Record(stamp(at + |earlier|), m.Text())])
  {
    MapIndexedAppend((k: nat, m: Message) => Echo(testMode, m.Text()), earlier, m);
    var shifted := Shift(stamp, at);
    MapIndexedAppend((k: nat, m: Message) => Record(shifted(k), m.Text()), earlier, m);
    assert shifted(|earlier|) == stamp(at + |earlier|);
  }

  /** Where a pass from `w0` stands after the first `i` entries of the
      listing: the messages of those entries, the filesystem, both outputs
      (grown from `c0` and `r0` by the lines of those messages), the
      downloads folder and the files of the remaining entries still in
      place. */
  ghost predicate Scanned(s: Settings, clock: nat -> int, ask: string -> bool, stamp: nat -> string, w0: World,
                          snapshot: seq<Entry>, i: nat, c0: seq<string>, r0: seq<string>,
                          messages: seq<Message>, w: World, console: seq<string>, records: seq<string>)
  {
    && i <= |snapshot|
    && messages == RunLog(s, clock, ask, snapshot[..i])
    && w == RunWorld(s, clock, ask, w0, snapshot[..i])
    && console == c0 + Echoes(s.testMode, messages)
    && records == r0 + FileRecords(s.testMode, messages, stamp)
    && s.downloads in w.dirs
    && Pending(s, snapshot, i, w)
  }

  /** Handling entry `i` as its fate says moves a scan from `i` entries to
      `i + 1`. */
  lemma ProgressStep(s: Settings, clock: nat -> int, ask: string -> bool, stamp: nat -> string, w0: World,
                     snapshot: seq<Entry>, i: nat, c0: seq<string>, r0: seq<string>,
                     messages: seq<Message>, w: World, console: seq<string>, records: seq<string>,
                     w': World, console': seq<string>, records': seq<string>)
    requires SnapshotOf(s, snapshot, w0) && i < |snapshot|
    requires Scanned(s, clock, ask, stamp, w0, snapshot, i, c0, r0, messages, w, console, records)
    requires w' == EntryEffect(s, w, snapshot[i], FateOf(s, clock, ask, snapshot[i], i), clock(i))
    requires console' == console + Echoes(s.testMode, EntryLog(s, snapshot[i], FateOf(s, clock, ask, snapshot[i], i)))
    requires records' == records + FileRecords(s.testMode, EntryLog(s, snapshot[i], FateOf(s, clock, ask, snapshot[i], i)),
                                               Shift(stamp, |messages|))
    ensures Scanned(s, clock, ask, stamp, w0, snapshot, i + 1, c0, r0,
                    messages + EntryLog(s, snapshot[i], FateOf(s, clock, ask, snapshot[i], i)), w', console', records')
  {
    var fate := FateOf(s, clock, ask, snapshot[i], i);
    var entryLog := EntryLog(s, snapshot[i], fate);
    RunStep(s, clock, ask, w0, snapshot, i);
    PendingStep(s, clock, ask, snapshot, i, w);
    EntryKeepsDirs(s, w, snapshot[i], fate, clock(i));
    LogRun(s.testMode, c0, r0, messages, entryLog, stamp, console', records');
  }

  /** One more logged message extends both outputs by its own line. */
  lemma LogStep(testMode: bool, c0: seq<string>, r0: seq<string>, done: seq<Message>, m: Message,
                stamp: nat -> string, console: seq<string>, records: seq<string>)
    requires console == (c0 + Echoes(testMode, done)) + [Echo(testMode, m.Text())]
    requires records == (r0 + FileRecords(testMode, done, stamp)) +
                        (if testMode then [] else [Record(stamp(|done|), m.Text())])
    ensures console == c0 + Echoes(testMode, done + [m])
    ensures records == r0 + FileRecords(testMode, done + [m], stamp)
  {
    EchoesAppend(testMode, done, m);
    RecordsAppend(done, m, stamp);
    ConcatAssociative(c0, Echoes(testMode, done), [Echo(testMode, m.Text())]);
    if !testMode {
      ConcatAssociative(r0, Records(done, stamp), [Record(stamp(|done|), m.Text())]);
    }
  }

  /** The outputs of a pass over an existing folder: the start marker's
      lines, those of the `count` messages of the scan (stamped from position
      1 on), and the completion marker's lines add up to the lines of the
      whole message sequence. */
  lemma ListingLog(testMode: bool, stamp: nat -> string, run: seq<Message>, count: nat,
                   c0: seq<string>, r0: seq<string>, c1: seq<string>, r1: seq<string>,
                   c2: seq<string>, r2: seq<string>, c3: seq<string>, r3: seq<string>)
    requires c1 == c0 + [Echo(testMode, Started.Text())]
    requires r1 == r0 + (if testMode then [] else [Record(stamp(0), Started.Text())])
    requires count == |run|
    requires c2 == c1 + Echoes(testMode, run)
    requires r2 == r1 + FileRecords(testMode, run, Shift(stamp, 1))
    requires c3 == c2 + [Echo(testMode, Completed.Text())]
    requires r3 == r2 + (if testMode then [] else [Record(stamp(1 + count), Completed.Text())])
    ensures c3 == c0 + Echoes(testMode, [Started] + run + [Completed])
    ensures r3 == r0 + FileRecords(testMode, [Started] + run + [Completed], stamp)
  {
    assert c0 + Echoes(testMode, []) == c0;
    assert r0 + FileRecords(testMode, [], stamp) == r0;
    LogStep(testMode, c0, r0, [], Started, stamp, c1, r1);
    assert [] + [Started] == [Started];
    LogRun(testMode, c0, r0, [Started], run, stamp, c2, r2);
    LogStep(testMode, c0, r0, [Started] + run, Completed, stamp, c3, r3);
  }

  /** A further run of logged messages extends both outputs by its lines,
      the records stamped on from where the earlier messages end. */
  lemma LogRun(testMode: bool, c0: seq<string>, r0: seq<string>, done: seq<Message>, more: seq<Message>,
               stamp: nat -> string, console: seq<string>, records: seq<string>)
    requires console == (c0 + Echoes(testMode, done)) + Echoes(testMode, more)
    requires records == (r0 + FileRecords(testMode, done, stamp)) + FileRecords(testMode, more, Shift(stamp, |done|))
    ensures console == c0 + Echoes(testMode, done + more)
    ensures records == r0 + FileRecords(testMode, done + more, stamp)
  {
    EchoesConcat(testMode, done, more);
    RecordsConcat(done, more, stamp);
    ConcatAssociative(c0, Echoes(testMode, done), Echoes(testMode, more));
    if !testMode {
      ConcatAssociative(r0, Records(done, stamp), Records(more, Shift(stamp, |done|)));
    }
  }

  /** Concatenation of sequences is associative. */
  lemma ConcatAssociative<T>(a: seq<T>, b: seq<T>, c: seq<T>)
    ensures (a + b) + c == a + (b + c)
  {
  }

  /** The console lines of two runs of messages, one after the other. */
  lemma EchoesConcat(testMode: bool, a: seq<Message>, b: seq<Message>)
    ensures Echoes(testMode, a + b) == Echoes(testMode, a) + Echoes(testMode, b)
  {
    var f := (k: nat, m: Message) => Echo(testMode, m.Text());
    MapIndexedConcat(f, f, a, b);
  }

  /** The records of two runs of messages, one after the other: the second
      run is stamped from where the first ends. */
  lemma RecordsConcat(a: seq<Message>, b: seq<Message>, stamp: nat -> string)
    ensures Records(a + b, stamp) == Records(a, stamp) + Records(b, Shift(stamp, |a|))
  {
    var shifted := Shift(stamp, |a|);
    MapIndexedConcat((k: nat, m: Message) => Record(stamp(k), m.Text()),
                     (k: nat, m: Message) => Record(shifted(k), m.Text()), a, b);
  }
}
