/** The `DownloadsCleaner` class itself: its configuration, the console and
    log file it writes, and the methods that change the filesystem step by
    step, each proved against the pure description of a pass. */
module Cleaner {
  import opened PathNames
  import opened Categories
  import opened Staleness
  import opened OrganizePass

  /** The part of the filesystem the cleaner works on: regular files with
      their last-access times, and directories. */
  class FileSystem {
    var files: map<string, int>
    var dirs: set<string>

    function State(): World
      reads this
    {
      World(files, dirs)
    }

    constructor(files: map<string, int>, dirs: set<string>)
      ensures State() == World(files, dirs)
    {
      this.files := files;
      this.dirs := dirs;
    }
  }

  class DownloadsCleaner {
    /** When set, nothing is trashed or moved and nothing is written to the
        log file; messages go to the console with a prefix. */
    const testMode: bool
    const downloadsPath: string
    const logFile := Join(downloadsPath, LogFileName)
    const monthsThreshold := 3
    const secondsThreshold := ThresholdSeconds(monthsThreshold)
    const folderMapping := FolderMapping

    /** The lines printed, oldest first. */
    var console: seq<string>
    /** The lines appended at `logFile`, oldest first, whichever file was
        there when each was written. */
    var logRecords: seq<string>

    /** The configuration the pure description of a pass is stated in. */
    function Config(): Settings {
      Settings(downloadsPath, testMode, secondsThreshold)
    }

    /** `__init__`, with the home directory and the test-mode switch given. */
    constructor(home: string, testMode: bool)
      ensures this.testMode == testMode
      ensures downloadsPath == Join(home, "Downloads")
      ensures logFile == Join(downloadsPath, LogFileName)
      ensures console == [] && logRecords == []
    {
      this.testMode := testMode;
      downloadsPath := Join(home, "Downloads");
      console := [];
      logRecords := [];
    }

    /** `log_action` at time `now`: in test mode the message is only
        printed, with a prefix; otherwise the log file is opened for
        appending, which creates it when it is missing, one stamped line is
        appended to it, and the message is printed as it is. Opening needs
        the downloads folder. */
    method LogAction(fs: FileSystem, message: string, stamp: string, now: int)
      requires !testMode ==> downloadsPath in fs.dirs
      modifies this`console, this`logRecords, fs`files
      ensures fs.State() == TouchLog(Config(), old(fs.State()), now)
      ensures console == old(console) + [Echo(testMode, message)]
      ensures logRecords == old(logRecords) + (if testMode then [] else [Record(stamp, message)])
    {
      if testMode {
        console := console + ["[TEST MODE] " + message];
      } else {
        if logFile !in fs.files {
          fs.files := fs.files[logFile := now];
        }
        logRecords := logRecords + ["[" + stamp + "] " + message + "\n"];
        console := console + [message];
      }
    }

    /** `file_has_expired`: the file has not been accessed for at least the
        threshold, at time `now`. */
    method FileHasExpired(fs: FileSystem, path: string, now: int) returns (expired: bool)
      requires path in fs.files
      ensures expired <==> Expired(now, fs.files[path], ThresholdSeconds(3))
    {
      var lastAccessTime := fs.files[path];
      var currentTime := now;
      expired := currentTime - lastAccessTime >= secondsThreshold;
    }

    /** `show_popup` at time `now`, with the user's answer given: deleting
        logs `Deleted`, trashes the file outside test mode and reports that
        the file is not to be moved; keeping logs `Kept` and reports that it
        is. */
    method ShowPopup(fs: FileSystem, path: string, deleteIt: bool, stamp: string, now: int) returns (keep: bool)
      requires !testMode ==> downloadsPath in fs.dirs
      requires !testMode && deleteIt ==> path in fs.files
      modifies this`console, this`logRecords, fs`files
      ensures keep == !deleteIt
      ensures var m := if deleteIt then DeletedFile(path) else KeptFile(path);
              && console == old(console) + [Echo(testMode, m.Text())]
              && logRecords == old(logRecords) + (if testMode then [] else [Record(stamp, m.Text())])
      ensures var logged := TouchLog(Config(), old(fs.State()), now);
              fs.State() == if deleteIt then DeleteEffect(Config(), logged, path) else logged
    {
      if deleteIt {
        LogAction(fs, DeletedFile(path).Text(), stamp, now);
        if !testMode {
          fs.files := fs.files - {path};
        }
        keep := false;
      } else {
        LogAction(fs, KeptFile(path).Text(), stamp, now);
        keep := true;
      }
    }

    /** The folder `move_file` picks: the first row of the table that lists
        the lower-cased extension of `path`, `Downloaded Others` when none
        does. */
    method DestinationFolderOf(path: string) returns (destFolder: string)
      ensures destFolder == DestinationFolder(downloadsPath, path)
    {
      var fileExt := LowerAscii(SplitExt(path).1);
      var found: Option<string> := None;
      var i := 0;
      while i < |folderMapping|
        invariant 0 <= i <= |folderMapping|
        invariant Lookup(folderMapping, fileExt) == Lookup(folderMapping[i..], fileExt)
      {
        if fileExt in folderMapping[i].1 {
          assert Lookup(folderMapping[i..], fileExt) == Some(folderMapping[i].0);
          found := Some(Join(downloadsPath, "Downloaded " + folderMapping[i].0));
          break;
        }
        i := i + 1;
      }
      if found == None {
        destFolder := Join(downloadsPath, "Downloaded Others");
      } else {
        destFolder := found.value;
      }
    }

    /** `move_file`: the folder is picked as above and created when nothing
        is in its place; the move is logged at time `now` and, outside test
        mode, carried out. */
    method MoveFile(fs: FileSystem, path: string, stamp: string, now: int)
      requires downloadsPath in fs.dirs
      requires !testMode ==> path in fs.files
      modifies this`console, this`logRecords, fs
      ensures !testMode ==> fs.State() == MoveEffect(Config(), old(fs.State()), path, old(fs.files[path]), now)
      ensures testMode ==> fs.State() == EnsureFolder(old(fs.State()), DestinationFolder(downloadsPath, path))
      ensures var m := MovedFile(path, DestinationPath(downloadsPath, path));
              && console == old(console) + [Echo(testMode, m.Text())]
              && logRecords == old(logRecords) + (if testMode then [] else [Record(stamp, m.Text())])
    {
      var destFolder := DestinationFolderOf(path);
      if !(destFolder in fs.dirs || destFolder in fs.files) {
        fs.dirs := fs.dirs + {destFolder};
      }
      ghost var w1 := fs.State();
      assert w1 == EnsureFolder(old(fs.State()), destFolder);
      var destPath := Join(destFolder, Basename(path));
      LogAction(fs, MovedFile(path, destPath).Text(), stamp, now);
      if !testMode {
        assert fs.files[path] == old(fs.files[path]);
        fs.files := Relocate(fs.files, path, destPath, fs.files[path]);
      }
    }

    /** The move that ends the turn for a regular file which is not
        trashed, after the `earlier` messages of that turn grew the outputs
        from `console0` and `records0`; `logged` messages of the pass
        precede the turn's and `count` precede the move. */
    method MoveLogged(fs: FileSystem, entry: Entry, now: int, stamp: nat -> string, logged: nat, count: nat,
                      ghost earlier: seq<Message>, ghost console0: seq<string>, ghost records0: seq<string>)
      returns (count': nat)
      requires FilePath(Config(), entry) in fs.files && fs.files[FilePath(Config(), entry)] == entry.atime
      requires downloadsPath in fs.dirs
      requires count == logged + |earlier|
      requires console == console0 + Echoes(testMode, earlier)
      requires logRecords == records0 + FileRecords(testMode, earlier, Shift(stamp, logged))
      modifies this`console, this`logRecords, fs
      ensures fs.State() == MoveEffect(Config(), old(fs.State()), FilePath(Config(), entry), entry.atime, now)
      ensures count' == count + 1
      ensures var path := FilePath(Config(), entry);
              var lines := earlier + [MovedFile(path, DestinationPath(downloadsPath, path))];
              && console == console0 + Echoes(testMode, lines)
              && logRecords == records0 + FileRecords(testMode, lines, Shift(stamp, logged))
    {
      var filePath := Join(downloadsPath, entry.name);
      assert filePath == FilePath(Config(), entry);
      ghost var before := fs.State();
      MoveFile(fs, filePath, stamp(count), now);
      count' := count + 1;
      LogAppend(testMode, earlier, MovedFile(filePath, DestinationPath(downloadsPath, filePath)), stamp, logged,
                console0, records0);
      if testMode {
        MoveEffectInTestMode(Config(), before, filePath, entry.atime, now);
      }
    }

    /** The expired branch of that turn: the user, whose answer is
        `deleteIt`, is asked about the file, which is trashed or, when kept,
        moved. */
    method OrganizeExpired(fs: FileSystem, entry: Entry, now: int, deleteIt: bool, stamp: nat -> string,
                           logged: nat) returns (count: nat)
      requires FilePath(Config(), entry) in fs.files && fs.files[FilePath(Config(), entry)] == entry.atime
      requires downloadsPath in fs.dirs
      modifies this`console, this`logRecords, fs
      ensures var fate := if deleteIt then Deleted else KeptAndMoved;
              && fs.State() == EntryEffect(Config(), old(fs.State()), entry, fate, now)
              && count == logged + |EntryLog(Config(), entry, fate)|
              && console == old(console) + Echoes(testMode, EntryLog(Config(), entry, fate))
              && logRecords == old(logRecords) + FileRecords(testMode, EntryLog(Config(), entry, fate), Shift(stamp, logged))
    {
      ghost var before := fs.State();
      var filePath := Join(downloadsPath, entry.name);
      assert filePath == FilePath(Config(), entry);
      assert filePath in fs.files;
      var keepFile := ShowPopup(fs, filePath, deleteIt, stamp(logged), now);
      count := logged + 1;
      LogOne(testMode, if keepFile then KeptFile(filePath) else DeletedFile(filePath), stamp, logged);
      if !keepFile {
        assert fs.State() == EntryEffect(Config(), before, entry, Deleted, now);
        assert EntryLog(Config(), entry, Deleted) == [DeletedFile(filePath)];
        return;
      }
      ghost var mid := fs.State();
      assert mid == TouchLog(Config(), before, now);
      count := MoveLogged(fs, entry, now, stamp, logged, count, [KeptFile(filePath)], old(console), old(logRecords));
      ghost var p := FilePath(Config(), entry);
      assert fs.State() == MoveEffect(Config(), mid, p, entry.atime, now);
      assert EntryLog(Config(), entry, KeptAndMoved) == [KeptFile(p)] + [MovedFile(p, DestinationPath(downloadsPath, p))];
    }

    /** The turn of the loop of `organize_downloads` for a regular file: the
        file is checked for expiry at time `now`, the user is asked about an
        expired one, and it is moved unless the user deleted it; all of it
        at time `now`. `logged` messages of the pass precede this file's. */
    method OrganizeFile(fs: FileSystem, entry: Entry, now: int, ask: string -> bool, stamp: nat -> string, logged: nat)
      returns (count: nat, ghost fate: Fate)
      requires FilePath(Config(), entry) in fs.files && fs.files[FilePath(Config(), entry)] == entry.atime
      requires downloadsPath in fs.dirs
      modifies this`console, this`logRecords, fs
      ensures fate == FileFate(Config(), now, entry.atime, ask(FilePath(Config(), entry)))
      ensures fs.State() == EntryEffect(Config(), old(fs.State()), entry, fate, now)
      ensures count == logged + |EntryLog(Config(), entry, fate)|
      ensures console == old(console) + Echoes(testMode, EntryLog(Config(), entry, fate))
      ensures logRecords == old(logRecords) + FileRecords(testMode, EntryLog(Config(), entry, fate), Shift(stamp, logged))
    {
      var filePath := Join(downloadsPath, entry.name);
      assert filePath == FilePath(Config(), entry);
      fate := FileFate(Config(), now, entry.atime, ask(filePath));
      var expired := FileHasExpired(fs, filePath, now);
      if expired {
        count := OrganizeExpired(fs, entry, now, ask(filePath), stamp, logged);
      } else {
        ghost var before := fs.State();
        count := MoveLogged(fs, entry, now, stamp, logged, logged, [], old(console), old(logRecords));
        assert fs.State() == EntryEffect(Config(), before, entry, Moved, now);
      }
    }

    /** One turn of the scan loop of `organize_downloads`: entry `i` of the
        listing, a regular file or not, with `count` messages logged so far. */
    method OrganizeEntry(fs: FileSystem, snapshot: seq<Entry>, i: nat, clock: nat -> int, ask: string -> bool,
                         stamp: nat -> string, count: nat, ghost w0: World, ghost c0: seq<string>,
                         ghost r0: seq<string>, ghost messages: seq<Message>) returns (count': nat)
      requires SnapshotOf(Config(), snapshot, w0) && i < |snapshot| && count == |messages|
      requires Scanned(Config(), clock, ask, stamp, w0, snapshot, i, c0, r0, messages, fs.State(), console, logRecords)
      modifies this`console, this`logRecords, fs
      ensures var messages' := messages + EntryLog(Config(), snapshot[i], FateOf(Config(), clock, ask, snapshot[i], i));
              && count' == |messages'|
              && Scanned(Config(), clock, ask, stamp, w0, snapshot, i + 1, c0, r0, messages', fs.State(), console, logRecords)
    {
      ghost var w, c, r := fs.State(), console, logRecords;
      count' := count;
      if snapshot[i].isFile {
        ghost var fate;
        count', fate := OrganizeFile(fs, snapshot[i], clock(i), ask, stamp, count);
      }
      ProgressStep(Config(), clock, ask, stamp, w0, snapshot, i, c0, r0, messages, w, c, r, fs.State(), console, logRecords);
    }

    /** The scan loop of `organize_downloads` over the listing `snapshot`:
        regular files are handled as above, directories skipped. `clock(i)`
        is the time at which entry `i` is examined, `ask(p)` the user's
        answer for `p` (true to delete), and `stamp(k)` the time stamp of the
        `k`-th message of the scan; `count` messages are logged. */
    method OrganizeEntries(fs: FileSystem, snapshot: seq<Entry>, clock: nat -> int, ask: string -> bool,
                           stamp: nat -> string) returns (count: nat)
      requires downloadsPath in fs.dirs && SnapshotOf(Config(), snapshot, fs.State())
      modifies this`console, this`logRecords, fs
      ensures fs.State() == RunWorld(Config(), clock, ask, old(fs.State()), snapshot)
      ensures count == |RunLog(Config(), clock, ask, snapshot)|
      ensures console == old(console) + Echoes(testMode, RunLog(Config(), clock, ask, snapshot))
      ensures logRecords == old(logRecords) + FileRecords(testMode, RunLog(Config(), clock, ask, snapshot), stamp)
    {
      ghost var w0 := fs.State();
      ghost var c0, r0 := console, logRecords;
      ghost var messages: seq<Message> := [];
      count := 0;
      var i := 0;
      while i < |snapshot|
        invariant 0 <= i <= |snapshot| && count == |messages|
        invariant Scanned(Config(), clock, ask, stamp, w0, snapshot, i, c0, r0, messages, fs.State(), console, logRecords)
      {
        count := OrganizeEntry(fs, snapshot, i, clock, ask, stamp, count, w0, c0, r0, messages);
        messages := messages + EntryLog(Config(), snapshot[i], FateOf(Config(), clock, ask, snapshot[i], i));
        i := i + 1;
      }
      assert snapshot[..i] == snapshot;
    }

    /** `organize_downloads` once the downloads folder is known to be there:
        the start marker at time `startTime`, the scan of the listing
        `snapshot`, read after it, and the completion marker at time
        `endTime`. `stamp(k)` is the time stamp of the `k`-th message. */
    method OrganizeListing(fs: FileSystem, snapshot: seq<Entry>, clock: nat -> int, ask: string -> bool,
                           stamp: nat -> string, startTime: int, endTime: int)
      requires downloadsPath in fs.dirs && SnapshotOf(Config(), snapshot, TouchLog(Config(), fs.State(), startTime))
      modifies this`console, this`logRecords, fs
      ensures fs.State() ==
                TouchLog(Config(), RunWorld(Config(), clock, ask, TouchLog(Config(), old(fs.State()), startTime), snapshot), endTime)
      ensures console == old(console) + Echoes(testMode, [Started] + RunLog(Config(), clock, ask, snapshot) + [Completed])
      ensures logRecords ==
                old(logRecords) + FileRecords(testMode, [Started] + RunLog(Config(), clock, ask, snapshot) + [Completed], stamp)
    {
      ghost var c0, r0 := console, logRecords;
      LogAction(fs, Started.Text(), stamp(0), startTime);
      ghost var c1, r1, w1 := console, logRecords, fs.State();
      var count := OrganizeEntries(fs, snapshot, clock, ask, Shift(stamp, 1));
      ghost var c2, r2 := console, logRecords;
      DirsGrow(Config(), clock, ask, w1, snapshot);
      LogAction(fs, Completed.Text(), stamp(1 + count), endTime);
      ListingLog(testMode, stamp, RunLog(Config(), clock, ask, snapshot), count,
                 c0, r0, c1, r1, c2, r2, console, logRecords);
    }

    /** `organize_downloads`: without the downloads folder the error is
        printed in test mode, and outside it logging the error raises, which
        `raised` reports; otherwise the folder is organized as above. The
        filesystem and both outputs end up as the pure description of a pass
        says. */
    method OrganizeDownloads(fs: FileSystem, snapshot: seq<Entry>, clock: nat -> int, ask: string -> bool,
                             stamp: nat -> string, startTime: int, endTime: int) returns (raised: bool)
      requires Exists(fs.State(), downloadsPath) ==>
                 downloadsPath in fs.dirs && SnapshotOf(Config(), snapshot, TouchLog(Config(), fs.State(), startTime))
      modifies this`console, this`logRecords, fs
      ensures raised <==> PassRaises(Config(), old(fs.State()))
      ensures fs.State() == PassWorld(Config(), clock, ask, startTime, endTime, old(fs.State()), snapshot)
      ensures console == old(console) + Echoes(testMode, PassLog(Config(), clock, ask, old(fs.State()), snapshot))
      ensures logRecords == old(logRecords) + FileRecords(testMode, PassLog(Config(), clock, ask, old(fs.State()), snapshot), stamp)
    {
      ghost var c0, r0 := console, logRecords;
      raised := false;
      if !(downloadsPath in fs.dirs || downloadsPath in fs.files) {
        if !testMode {
          raised := true;
          assert Echoes(testMode, []) == [] && FileRecords(testMode, [], stamp) == [];
          return;
        }
        LogAction(fs, Missing(downloadsPath).Text(), stamp(0), startTime);
        LogStep(testMode, c0, r0, [], Missing(downloadsPath), stamp, console, logRecords);
        return;
      }
      OrganizeListing(fs, snapshot, clock, ask, stamp, startTime, endTime);
    }
  }
}
