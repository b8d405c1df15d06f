# DownloadsCleaner in Dafny

A model of the `DownloadsCleaner` class of `downloadsCleaner.py`. The class
runs one organising pass over the user's Downloads folder:

- it lists the folder once;
- for every regular file it checks whether the file has gone unaccessed for
  three 30-day months;
- it asks the user whether to delete such an inactive file (to the recycle
  bin);
- it moves every file it keeps into `Downloaded <Label>`, where the label
  comes from the lower-cased extension and the first matching row of its
  extension table (`Images`, `Music`, `Videos`, `Documents`, else `Others`);
- it logs every action. In test mode it only prints, prefixed with
  `[TEST MODE]`, and neither trashes nor moves anything. Outside test mode it
  also appends one stamped line per action to `download_organizer_log.txt`.

The project has five modules, one file each:

- `path_names.dfy` (`PathNames`): the parts of POSIX `os.path` and `str` the
  class relies on. These are `rfind`, `join`, `basename`, `splitext` (a
  leading dot starts no extension) and ASCII `lower`. Each comes with lemmas
  stating what it computes.
- `categories.dfy` (`Categories`):
  - the extension sets and `folder_mapping`, as an ordered table;
  - the first-match lookup with its catch-all;
  - the destination folder and path that `move_file` computes.
- `staleness.dfy` (`Staleness`): the month-to-seconds threshold and the expiry
  test of `file_has_expired`.
- `organize_pass.dfy` (`OrganizePass`): a pure description of one pass.
  - A listing entry (`Entry`: name, regular file or not, access time) gets a
    fate: ignored, moved, kept and moved, or deleted.
  - `EntryEffect` and `EntryLog` give what the entry does to the filesystem
    (`World`: files with access times, plus directories) and which messages
    it logs.
  - `RunWorld`/`RunLog` fold these over the listing, and `PassWorld`/`PassLog`
    add the missing-folder check and the two markers.
  - `Echoes` and `FileRecords` turn messages into the printed lines and the
    log-file lines.
  - The lemmas state what a pass guarantees.
- `cleaner.dfy` (`Cleaner`): the class itself, with the filesystem as a mutable
  object.
  - `log_action`, `file_has_expired`, `show_popup`, `move_file` and
    `organize_downloads` are methods that change the filesystem and the two
    outputs step by step.
  - Each method's postcondition ties the new state to the pure description
    above.
  - `organize_downloads` is split into its parts:
    - `OrganizeDownloads`: the folder check, then the rest;
    - `OrganizeListing`: the two markers around the scan;
    - `OrganizeEntries`: the scan loop;
    - `OrganizeEntry`: one turn of the loop;
    - `OrganizeFile`: the turn for a regular file;
    - `OrganizeExpired`: the turn for an expired file;
    - `MoveLogged`: the move that ends the turn for a file that is not trashed.

Outside input is passed in as parameters:

- `clock(i)`: the time at which entry `i` of the listing is examined;
- `ask(p)`: the user's answer for path `p` (true means delete);
- `stamp(k)`: the time stamp of the `k`-th message of a pass;
- the home directory, given to the constructor.

The listing is read right after the start marker is logged. It has to
agree with the filesystem at that moment: names hold no separator and are
distinct, and each regular file is present with the reported access time.

Subdirectories are skipped. Every regular file of the listing is either
trashed or moved.

Outside test mode the start marker's `open(log_file, "a")` (line 75) creates
`download_organizer_log.txt` before `os.scandir` lists the folder
(lines 166-169). So the pass examines its own log file:

- the file is a `.txt`, so unless the user trashes it, it is moved to
  `Downloaded Documents`;
- there it replaces the log file that an earlier pass filed there;
- the next `log_action` creates a fresh log file in the downloads folder.

A move has no rename on collision: it overwrites a file at the destination.
There is no per-entry error recovery. Outside test mode a missing downloads
folder makes the error's own `log_action` raise, because the log file cannot
be opened inside a missing folder. This happens before anything is printed or
written.

## Model

| member | source | states |
|---|---|---|
| PathNames.LastIndexOf | downloadsCleaner.py:132 | `rfind` gives -1 or an index of the text |
| PathNames.LastIndexOfSpec | downloadsCleaner.py:132 | the index found holds the character and no later position does |
| PathNames.Join | downloadsCleaner.py:150 | POSIX `os.path.join` of two components: an absolute second one replaces the first, otherwise one separator is inserted unless the first is empty or ends with one |
| PathNames.JoinSpec | downloadsCleaner.py:150 | `join` ends with its second component; a relative one is appended with exactly one separator |
| PathNames.Basename | downloadsCleaner.py:150 | `os.path.basename`: everything after the last separator |
| PathNames.BasenameSpec | downloadsCleaner.py:150 | `basename` is the longest separator-free suffix of the path |
| PathNames.BasenameOfJoin | downloadsCleaner.py:172 | the base name of `join(folder, entry.name)` is the entry's name |
| PathNames.JoinKeepsName | downloadsCleaner.py:150 | joining a base name onto a folder puts one separator in between and keeps the base name |
| PathNames.SplitExt | downloadsCleaner.py:132 | `os.path.splitext`: the extension runs from the last dot of the base name, unless only dots precede that dot in the base name |
| PathNames.SplitExtSpec | downloadsCleaner.py:132 | root + extension is the path; a non-empty extension is one dot followed by no dot and no separator |
| PathNames.LeadingDotsAreNoExtension | downloadsCleaner.py:132 | a base name with only dots before its last dot (`.bashrc`) has no extension |
| PathNames.SplitExtOfBasename | downloadsCleaner.py:132 | the extension of a path is that of its base name |
| PathNames.SplitExtAfterDirectory | downloadsCleaner.py:132 | a directory part in front does not change the extension |
| PathNames.LowerChar | downloadsCleaner.py:132 | one character of `.lower()`: an ASCII capital becomes its small letter, every other character stays |
| PathNames.LowerAscii | downloadsCleaner.py:132 | lower-casing keeps the length |
| PathNames.LowerAsciiAt | downloadsCleaner.py:132 | lower-casing works character by character |
| PathNames.LowerAsciiIdempotent | downloadsCleaner.py:132 | lower-casing twice equals lower-casing once |
| PathNames.SplitExtOfLower | downloadsCleaner.py:132 | taking the extension commutes with lower-casing |
| Categories.Lookup | downloadsCleaner.py:136-139 | the loop over `folder_mapping.items()`: the label of the first row, in dict order, whose set holds the extension, or none |
| Categories.LookupSpec | downloadsCleaner.py:136-143 | the lookup finds nothing exactly when no row lists the extension, else the label of the first row that does |
| Categories.LookupUnique | downloadsCleaner.py:136-143 | with disjoint rows the first match is the only match |
| Categories.ImagesApart | downloadsCleaner.py:50-53 | the image set shares no extension with the others |
| Categories.MusicAndVideosApart | downloadsCleaner.py:51-53 | the music, video and document sets are pairwise disjoint |
| Categories.FolderMappingDisjoint | downloadsCleaner.py:56-62 | no extension is in two rows of `folder_mapping` |
| Categories.Category | downloadsCleaner.py:136-143 | the label of the lookup, or `Others` when it finds nothing |
| Categories.CategoryIsLabel | downloadsCleaner.py:136-144 | every extension gets one of the five labels |
| Categories.CategoryOfListed | downloadsCleaner.py:136-139 | an extension gets row i's label if and only if row i lists it |
| Categories.CategoryOfUnlisted | downloadsCleaner.py:142-144 | an extension gets `Others` if and only if no row lists it, the empty extension included |
| Categories.Subfolder | downloadsCleaner.py:132-143 | the folder name `Downloaded <Label>` for the lower-cased extension of the path |
| Categories.DestinationFolder | downloadsCleaner.py:132-143 | `dest_folder`: that folder name joined onto the downloads path |
| Categories.DestinationPath | downloadsCleaner.py:150 | `dest_path`: the base name of the file joined onto `dest_folder` |
| Categories.DestinationFolderShape | downloadsCleaner.py:138-144 | the category folder is non-empty and does not end with a separator |
| Categories.DestinationKeepsName | downloadsCleaner.py:150 | the destination is the category folder, a separator and the unchanged base name |
| Categories.DestinationIgnoresCase | downloadsCleaner.py:132 | paths equal up to ASCII case get the same folder |
| Categories.DestinationOfJoin | downloadsCleaner.py:132 | only the base name decides the folder |
| Categories.FolderOfName | downloadsCleaner.py:132-139 | a plain name is classified by the text from its last dot on |
| Categories.FolderOfListedName | downloadsCleaner.py:132-139 | a file whose extension row i lists goes to `Downloaded <row i's label>` |
| Categories.LogFileGoesToDocuments | downloadsCleaner.py:43 | the cleaner's own log file is filed under `Downloaded Documents` |
| Categories.PhotoCaseIgnored | downloadsCleaner.py:132 | `photo.JPG` and `photo.jpg` get the same folder |
| Categories.PhotoGoesToImages | downloadsCleaner.py:132-139 | `photo.jpg` goes to `Downloaded Images` |
| Categories.HiddenFileGoesToOthers | downloadsCleaner.py:132-144 | `.bashrc` has no extension and goes to `Downloaded Others` |
| Staleness.ThresholdSeconds | downloadsCleaner.py:47 | a number of months times 30 days of 24 hours of 3600 seconds |
| Staleness.DefaultThreshold | downloadsCleaner.py:46-47 | three months are 7,776,000 seconds |
| Staleness.ThresholdMonotone | downloadsCleaner.py:47 | more months never give a shorter threshold |
| Staleness.Expired | downloadsCleaner.py:91 | the time since the last access is at least the threshold |
| Staleness.ExpiredAtSmallerThreshold | downloadsCleaner.py:91 | expired at one threshold implies expired at every smaller one |
| Staleness.ExpiredStaysExpired | downloadsCleaner.py:91 | expired now implies expired at every later time |
| OrganizePass.Exists | downloadsCleaner.py:146-162 | `os.path.exists`: a file or a directory is at the path; it decides `makedirs` (line 146) and the missing-folder branch (line 162) |
| OrganizePass.FilePath | downloadsCleaner.py:172 | an entry's path is its name joined onto the downloads path |
| OrganizePass.FileFate | downloadsCleaner.py:175-181 | a file that has not expired is moved; an expired one is deleted when the user says so, else kept and moved |
| OrganizePass.FateOf | downloadsCleaner.py:171-181 | a directory is ignored; a regular file meets the fate of its expiry at its examination time and the user's answer |
| OrganizePass.Message.Text | downloadsCleaner.py:117-183 | the exact texts handed to `log_action` at lines 117, 122, 152, 163, 166 and 183, the arrow included |
| OrganizePass.EntryLog | downloadsCleaner.py:170-181 | the messages of one entry: none, `Moved`, `Kept` then `Moved`, or `Deleted` |
| OrganizePass.LogPath | downloadsCleaner.py:43 | the log file is `download_organizer_log.txt` inside the downloads folder |
| OrganizePass.TouchLog | downloadsCleaner.py:71-75 | outside test mode, opening the log for appending creates it when missing and leaves an existing one alone |
| OrganizePass.EnsureFolder | downloadsCleaner.py:146-147 | the folder is created only when nothing exists at its path |
| OrganizePass.Relocate | downloadsCleaner.py:155 | the file leaves its path and arrives at the destination with its access time, replacing what was there |
| OrganizePass.MoveEffect | downloadsCleaner.py:145-155 | `move_file`: folder created if missing, even in test mode; the log touched; outside test mode the file relocated |
| OrganizePass.MoveEffectInTestMode | downloadsCleaner.py:146-155 | in test mode `move_file` only creates the missing folder |
| OrganizePass.DeleteEffect | downloadsCleaner.py:118-119 | outside test mode the file is removed; in test mode nothing changes |
| OrganizePass.EntryEffect | downloadsCleaner.py:171-181 | one entry: nothing for a directory; the `Deleted` or `Kept` message is logged first, then the file is trashed or moved |
| OrganizePass.RunWorld | downloadsCleaner.py:169-181 | the entries of the listing applied in order, entry i at time `clock(i)` |
| OrganizePass.RunLog | downloadsCleaner.py:169-181 | the messages of the entries of the listing, in order |
| OrganizePass.PassRaises | downloadsCleaner.py:162-163 | the pass raises exactly outside test mode when the downloads folder is missing |
| OrganizePass.PassWorld | downloadsCleaner.py:157-183 | a missing folder changes nothing; otherwise start marker, scan and completion marker, in that order |
| OrganizePass.PassLog | downloadsCleaner.py:157-183 | a missing folder logs the error in test mode and nothing otherwise; else start marker, the scan's messages and completion marker |
| OrganizePass.Echo | downloadsCleaner.py:71-77 | the printed line: `[TEST MODE] ` and the message in test mode, the bare message otherwise |
| OrganizePass.Record | downloadsCleaner.py:74-76 | the appended line: the stamp in brackets, a space, the message and a newline |
| OrganizePass.SnapshotOf | downloadsCleaner.py:169-172 | the listing's names hold no separator and are distinct, and its regular files exist with their access times |
| OrganizePass.ListsEveryFile | downloadsCleaner.py:169-171 | the listing names every regular file directly inside the downloads folder |
| OrganizePass.DestinationShape | downloadsCleaner.py:138-150 | a destination is the downloads prefix, a separator-free folder name, a separator and the base name |
| OrganizePass.SourceIsNotDestination | downloadsCleaner.py:150 | a file straight inside the downloads folder is never a destination |
| OrganizePass.FolderIsNotDestination | downloadsCleaner.py:146-150 | a destination folder is never a destination file |
| OrganizePass.SourcesDistinct | downloadsCleaner.py:172 | distinct entry names give distinct file paths |
| OrganizePass.DestinationsDistinct | downloadsCleaner.py:150 | distinct entry names give distinct destinations |
| OrganizePass.SourcesAreFiles | downloadsCleaner.py:170-172 | a path is among the examined ones if and only if it is the path of a regular-file entry |
| OrganizePass.PlacedAreDestinations | downloadsCleaner.py:150-155 | every arrival is the destination of some entry |
| OrganizePass.FilesOrigin | downloadsCleaner.py:75-155 | every file after a scan was there before, is a destination, or is the log file |
| OrganizePass.DirsGrow | downloadsCleaner.py:146-147 | directories are only added, and only destination folders |
| OrganizePass.EntryDirs | downloadsCleaner.py:146-147 | one entry adds at most its destination folder, and only when it moves |
| OrganizePass.EntryKeepsDirs | downloadsCleaner.py:146-155 | no entry removes a directory |
| OrganizePass.TestModeWorld | downloadsCleaner.py:146-155 | in test mode no file moves or disappears, and exactly the missing destination folders are created |
| OrganizePass.SourceNotPlaced | downloadsCleaner.py:150 | no file arrives at a path straight inside the downloads folder |
| OrganizePass.LogIsNotDestination | downloadsCleaner.py:43 | the log file's path is never a destination |
| OrganizePass.LiveEntryFiles | downloadsCleaner.py:116-155 | in live mode, the log file aside, an entry removes its file when deleted, relocates it when moved, else changes nothing |
| OrganizePass.LiveFilesStep | downloadsCleaner.py:169-181 | one more entry keeps the live-mode description of the files |
| OrganizePass.LiveFiles | downloadsCleaner.py:169-181 | in live mode the files after a scan, the log file aside, are the files before, minus every examined file, plus the arrivals |
| OrganizePass.LivePass | downloadsCleaner.py:157-183 | after a live pass the log file exists, and the other files are those before, minus every examined file, plus the arrivals |
| OrganizePass.PlacedAt | downloadsCleaner.py:150-155 | a moved file is at its destination with its access time; a file that did not move arrives nowhere |
| OrganizePass.LiveFileFate | downloadsCleaner.py:166-181 | in live mode every examined file leaves its place, except that the log file is there again at the end; a moved one is at its destination; a deleted one leaves its destination as it was |
| OrganizePass.LogFileIsFiled | downloadsCleaner.py:166-181 | a live pass lists its own log file; unless trashed it ends up as `Downloaded Documents/download_organizer_log.txt`, over an earlier one, and a fresh log file exists |
| OrganizePass.LogDestination | downloadsCleaner.py:43-53 | the log file's destination is `Downloaded Documents/download_organizer_log.txt` |
| OrganizePass.EnsureFolderIdempotent | downloadsCleaner.py:146-147 | creating a folder touches no file, makes the path exist and is a no-op the second time |
| OrganizePass.TestModePass | downloadsCleaner.py:146-155 | a simulated pass keeps every file and adds exactly the missing destination folders |
| OrganizePass.SimulatedPassIsRepeatable | downloadsCleaner.py:157-183 | a second simulated pass with the same clock, answers and listing changes nothing and logs the same messages; the second listing is assumed to be the first one, without the folders the first pass created |
| OrganizePass.RunLogStep | downloadsCleaner.py:169-181 | one more entry appends its messages to the log |
| OrganizePass.RunLogPrefix | downloadsCleaner.py:169-181 | the log only grows: the messages of the first k entries are a prefix of the log |
| OrganizePass.EntryLogInPlace | downloadsCleaner.py:169-181 | an entry's messages sit right after those of the entries before it |
| OrganizePass.EntryLogByCase | downloadsCleaner.py:170-181 | a directory logs nothing; a fresh file logs `Moved`; an expired deleted file logs only `Deleted`; an expired kept file logs `Kept` then `Moved` |
| OrganizePass.EntryMessagesInOrder | downloadsCleaner.py:170-181 | the case-by-case messages of entry i sit in the log right after those of entries 0..i-1 |
| OrganizePass.MarkerTexts | downloadsCleaner.py:166-183 | a message has a marker's text if and only if it is that marker |
| OrganizePass.RunLogHasNoMarkers | downloadsCleaner.py:169-181 | no entry logs a marker |
| OrganizePass.LogFraming | downloadsCleaner.py:166-183 | with the folder present the log starts with the start marker, ends with the completion marker and has neither in between |
| OrganizePass.MissingFolderPass | downloadsCleaner.py:162-164 | without the folder nothing changes and no marker is logged; in test mode exactly one `ERROR` message is printed; outside test mode the pass raises and logs nothing |
| OrganizePass.Echoes | downloadsCleaner.py:71-77 | the printed lines of a run of messages, one per message, in order |
| OrganizePass.FileRecords | downloadsCleaner.py:71-76 | the lines appended to the log file for a run of messages: none in test mode, else one stamped line each |
| OrganizePass.EchoesAppend | downloadsCleaner.py:71-77 | one more message adds one console line and keeps the earlier ones |
| OrganizePass.RecordsAppend | downloadsCleaner.py:74-76 | one more message appends one stamped record and keeps the earlier ones |
| OrganizePass.EchoesConcat | downloadsCleaner.py:71-77 | the console lines of two message runs are those of each, in order |
| OrganizePass.RecordsConcat | downloadsCleaner.py:74-76 | the records of two message runs are those of each, the second stamped on from where the first ends |
| OrganizePass.LogOne | downloadsCleaner.py:64-77 | the lines of one message: one console line, and one stamped record outside test mode |
| OrganizePass.LogAppend | downloadsCleaner.py:64-77 | one more message adds its console line and, outside test mode, its record stamped with the next stamp |
| OrganizePass.EntryEffectElsewhere | downloadsCleaner.py:154-155 | an entry leaves alone every path other than its own, its destination and a missing log file |
| OrganizePass.PendingStep | downloadsCleaner.py:169-181 | handling one entry leaves the files of the later entries in place |
| OrganizePass.RunStep | downloadsCleaner.py:169-181 | one more entry applies its effect and appends its messages |
| OrganizePass.ProgressStep | downloadsCleaner.py:169-181 | handling entry i as its fate says moves the scan state from i entries to i + 1 |
| OrganizePass.LogStep | downloadsCleaner.py:64-77 | one more `log_action` call extends both outputs by that message's lines |
| OrganizePass.LogRun | downloadsCleaner.py:64-77 | a run of `log_action` calls extends both outputs by the lines of its messages |
| OrganizePass.ListingLog | downloadsCleaner.py:166-183 | start marker, scan and completion marker together log the whole message sequence |
| Cleaner.DownloadsCleaner.constructor | downloadsCleaner.py:31-62 | the downloads path is `join(home, "Downloads")`, the log file lies inside it, and both outputs start empty |
| Cleaner.DownloadsCleaner.LogAction | downloadsCleaner.py:64-77 | one printed line (prefixed in test mode); outside test mode the log file is created when missing and one stamped record is appended |
| Cleaner.DownloadsCleaner.FileHasExpired | downloadsCleaner.py:79-91 | the result is true if and only if `now - atime` reaches three months in seconds |
| Cleaner.DownloadsCleaner.ShowPopup | downloadsCleaner.py:93-123 | deleting logs `Deleted`, then trashes the file outside test mode and returns false; keeping logs `Kept` and returns true; logging may create the log file |
| Cleaner.DownloadsCleaner.DestinationFolderOf | downloadsCleaner.py:132-143 | the loop over the table finds the folder of the first matching row, or `Downloaded Others` |
| Cleaner.DownloadsCleaner.MoveFile | downloadsCleaner.py:125-155 | the folder is created when nothing is there, even in test mode; the move is logged; outside test mode the file moves to its destination with its access time |
| Cleaner.DownloadsCleaner.MoveLogged | downloadsCleaner.py:181 | the move at the end of a kept file's turn extends the turn's lines by the `Moved` message |
| Cleaner.DownloadsCleaner.OrganizeExpired | downloadsCleaner.py:175-181 | an expired file is deleted when the user says so, and otherwise kept and moved, with the lines of that fate |
| Cleaner.DownloadsCleaner.OrganizeFile | downloadsCleaner.py:171-181 | the file's fate follows its expiry and the user's answer; the filesystem and the printed and recorded lines are those of that fate |
| Cleaner.DownloadsCleaner.OrganizeEntry | downloadsCleaner.py:169-181 | one loop turn moves the scan state from entry i to i + 1 |
| Cleaner.DownloadsCleaner.OrganizeEntries | downloadsCleaner.py:168-181 | the scan loop ends in the described world, having logged exactly the scan's messages |
| Cleaner.DownloadsCleaner.OrganizeListing | downloadsCleaner.py:166-183 | with the folder present: start marker (creating the log file outside test mode), the scan, and completion marker, with their lines |
| Cleaner.DownloadsCleaner.OrganizeDownloads | downloadsCleaner.py:157-183 | `raised` exactly when the folder is missing outside test mode; the filesystem and both outputs end as the description of a whole pass says |

## Left out

- The Tk dialog (`tk.Tk`, `messagebox.askyesno`) and its text: the user's answer is the `ask` parameter.
- `send2trash` and `shutil.move` are updates of the file map: a removal, and a rename. A file already at the destination is overwritten, as `shutil.move` does on POSIX. Other collisions are not modelled, and on them the model's result differs from the source's. With a directory at the destination path, `shutil.move` moves the file into that directory under its base name, raising only when that name is taken there. With a file where the destination folder should be, or a directory at the log file's path, the source raises. Moves across devices are not distinguished.
- `time.time`, `os.path.getatime` and `time.strftime`: times are integers and stamps opaque strings, all supplied as parameters. Floating-point times are not modelled.
- A log file re-created by `log_action` gets as access time the time of that call: `startTime`, `clock(i)` for the entry being handled, or `endTime`.
- `os.getenv("USERNAME")` is not modelled, since the field is never used. `Path.home()` is the constructor's `home` parameter.
- `print` and the log file's lines are two sequences (`console`, `logRecords`). File contents are not modelled, only paths and access times. So the model does not say which of the lines end up in the log file moved to `Downloaded Documents` and which in the fresh one. The file encoding is not modelled either.
- `test_mode` is a constructor parameter; the source fixes it to `True` at line 36.
- Paths use the POSIX separator `/` only; Windows path rules are not modelled.
- `str.lower` covers ASCII letters only; full Unicode case mapping is not modelled.
- The one exception modelled is the missing downloads folder outside test mode (`raised`). Other exceptions are not modelled: `os.scandir` on a path that is a regular file, `getatime`, `send2trash` or `move` on a missing file, and `makedirs` failures. The affected operations carry preconditions instead (next lines).
- Cleaner.DownloadsCleaner.LogAction: requires the downloads folder outside test mode, where `open` would raise; ShowPopup and MoveFile pass this requirement on.
- Cleaner.DownloadsCleaner.ShowPopup: requires the file to be present when it is trashed outside test mode, where `send2trash` would raise.
- Cleaner.DownloadsCleaner.FileHasExpired: requires the file to be present, where `getatime` would raise.
- Cleaner.DownloadsCleaner.MoveFile: requires the file to be present outside test mode, where `shutil.move` would raise.
- Cleaner.DownloadsCleaner.MoveFile: requires the downloads folder to exist in test mode too, because `os.makedirs` would create it and its missing parents along with the category folder, and the model's folder creation adds the category folder alone; MoveLogged, OrganizeExpired and OrganizeFile pass this requirement on, and a pass meets it since it returns early without the folder.
- Cleaner.DownloadsCleaner.OrganizeFile: requires the file to be present with the access time the listing reported.
- Cleaner.DownloadsCleaner.OrganizeDownloads: requires an existing downloads path to be a directory whose listing, read after the start marker, is `snapshot`. The listing is read once; concurrent changes to the folder during the pass are not modelled, and entries created by the pass itself (the category folders, the re-created log file) are assumed not to appear in the listing. That the listing names every file is assumed only by OrganizePass.LogFileIsFiled (`ListsEveryFile`).
- Cleaner.DownloadsCleaner.OrganizeEntries: the loop body is split into OrganizeEntry, OrganizeFile, OrganizeExpired and MoveLogged. `ask` is read as a function of the path rather than a dialog shown at that moment.
