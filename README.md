# TraineeManager bookkeeping, modelled in Dafny

TraineeManager is a desktop tool for training sessions. It watches the system's
screenshot folder, relocates each new capture into the folder of the running
training, and shows the captures of a training in a gallery window
(`ScreenshotManager`). In that window the instructor can comment on captures,
switch one "live" on a remote viewer, and run a debrief that uploads all of
them. The repository ships two variants of the app:

- `trainee_manager.py` is the current one. It uses a training id, a stopwatch
  and the gallery window, and relocates captures as `screenshot_<timestamp>.png`.
- `main.py` is the older one. It has no gallery. It asks for an optional note
  per capture and names the file `screenshot_<timestamp>[_<note>].png`. It
  fills the placeholders of a notes template when a training starts.

The model keeps the bookkeeping underneath the GUI: flags, the metadata
sidecar, file names, paths and the listing of folders. It is sequential.
Dialog answers, HTTP verdicts, clock readings, uuids and the success of file
operations are inputs.

Modules:

- `Wrappers` holds `Option`.
- `Text` holds the Python string operations used: `split` on one character,
  `strip`, `replace`, `in`, `endswith` and ASCII `lower`.
- `PathNames` holds `ntpath`'s `join`, `basename` and `splitext`.
- `Metadata` models the `comments.json` sidecar value and its edits.
- `FileSystem` models files, directories and sidecars as a `Disk` object.
- `Endpoints` holds the API URLs, the viewer link and the end-of-debrief
  sentinel.
- `Gallery` models `ScreenshotManager` as a class.
- `TraineeManager` models `trainee_manager.py`'s `TraineeManagerApp`.
- `MainApp` models `main.py`'s `TraineeManagerApp`.

The two app variants are kept apart. They share the path, file-system and
gallery modules. `main.py` borrows two things from `TraineeManager`:

- the watcher test, because both variants' `on_created` handlers have the same
  code;
- the trainee folder name.

Consequences the proofs bring out:

- Two captures relocated within the same second get the same name, and the
  second overwrites the first (`TraineeManager.CanonicalNameInjective`,
  `FileSystem.SecondMoveOverwrites`).
- An open gallery stays bound to the folder and id it was opened with. A new
  training started while it is open only refreshes it
  (`TraineeManager.TraineeManagerApp.StartTrainingMode`).
- The watcher accepts `.PNG`, but the gallery lists only `.png`. A `.PNG`
  file put into a training's `screenshots` folder by hand is never shown.
  Forwarded captures are renamed to `.png`, so they are shown
  (`TraineeManager.UpperCaseForwardedNotListed`).

## Model

| member | source | states |
|---|---|---|
| Text.SplitJoin | screenshot_manager.py:123 | `split` yields one more piece than there are separators, no piece contains the separator, and joining the pieces gives the string back |
| Text.Split | screenshot_manager.py:123 | definition of `str.split` on one character; its properties are stated by `Text.SplitJoin` |
| Text.ContainsIff | main.py:182 | `pat in s` holds exactly when `pat` occurs at some position of `s` |
| Text.ReplaceAbsent | main.py:182-187 | replacing a pattern that does not occur leaves the text unchanged |
| Text.ReplaceFirst | main.py:183 | when the first occurrence of the pattern follows `a`, `replace` keeps `a`, puts the replacement there and continues after the occurrence |
| Text.Replace | main.py:183 | definition of `str.replace`; its properties are stated by `Text.ReplaceAbsent` and `Text.ReplaceFirst` |
| Text.Lower | trainee_manager.py:237 | definition of ASCII `str.lower`; `TraineeManager.LowerPng` states its value on `.PNG` and `.png` |
| Text.Strip | main.py:245 | the stripped note is the slice between the leading and the trailing whitespace, it neither starts nor ends with whitespace, and it is empty exactly when the entry is all whitespace |
| Text.StripIdempotent | main.py:245 | stripping an already stripped note changes nothing |
| PathNames.Join | screenshot_manager.py:38 | definition of `ntpath.join` for two parts; `PathNames.BasenameOfJoin` and `PathNames.ExtOfJoin` state what it keeps |
| PathNames.Basename | screenshot_manager.py:200 | the basename contains no separator, ends the path, and is preceded by a separator whenever it is shorter than the path |
| PathNames.BasenameOfJoin | screenshot_manager.py:38 | a separator-free name joined onto a folder has that name as its basename |
| PathNames.ExtOfJoin | trainee_manager.py:236 | a path made by joining a separator-free name onto any folder has that name's extension |
| PathNames.Ext | trainee_manager.py:236 | the extension is empty or starts with a dot, ends the path, and contains no further dot or separator |
| PathNames.Stem | screenshot_manager.py:122 | stem followed by extension gives the path back |
| PathNames.ExtOfSuffix | trainee_manager.py:236 | for a name not starting with a dot, followed by a dot-suffix without further dots or separators, the suffix is the extension and the name is the stem |
| Metadata.Fresh | screenshot_manager.py:50 | a folder without a sidecar starts with no comments, an empty discussed list and an empty live pointer |
| Metadata.SetComment | screenshot_manager.py:208-213 | the comment for the name becomes the given text; no other comment changes; the key set grows by the name only; the discussed list and the live pointer stay |
| Metadata.GoLive | screenshot_manager.py:346-348 | the live pointer becomes the name; the name is in the discussed list; the old list is a prefix of the new one and only the name is added; an already discussed name leaves the list as is; comments stay |
| Metadata.GoLiveIdempotent | screenshot_manager.py:346-348 | going live twice on a name gives the same metadata as going live once |
| Metadata.GoLiveCount | screenshot_manager.py:347-348 | after going live the name occurs in the discussed list as often as before if it was there, otherwise exactly once |
| Metadata.GoLiveNoDuplicates | screenshot_manager.py:347-348 | going live keeps the discussed list free of duplicates |
| Metadata.Apply | screenshot_manager.py:208-215 | a comment edit, a go-live or a deletion never shortens the discussed list: the old list is a prefix of the new one |
| Metadata.DiscussedOnlyGrows | screenshot_manager.py:347-348 | over any sequence of edits, the discussed list only grows (prefix order) |
| Metadata.NoDuplicatesKept | screenshot_manager.py:347-348 | over any sequence of edits, a duplicate-free discussed list stays duplicate-free |
| Metadata.LiveIsLastAccepted | screenshot_manager.py:344-354 | after a sequence of edits the live pointer names the last accepted go-live; without one it is unchanged, so refused go-lives, comment edits and deletions never move it |
| Metadata.CommentIsLastAccepted | screenshot_manager.py:199-215 | after a sequence of edits a file's comment is the answer of its last non-cancelled edit, or the old comment; deletions do not clear it |
| Endpoints.UploadUrl | screenshot_manager.py:319 | definition of the upload URL; `Endpoints.UploadUrlRoundTrip` and `Endpoints.UploadIsNotSync` state its properties |
| Endpoints.SyncUrl | screenshot_manager.py:338 | definition of the sync URL; `Endpoints.SyncUrlRoundTrip` and `Endpoints.UploadIsNotSync` state its properties |
| Endpoints.EndSignal | screenshot_manager.py:306-308 | definition of the end-of-debrief request: the sentinel posted to the sync URL |
| Endpoints.TrainingLink | screenshot_manager.py:286 | definition of the viewer link of a training |
| Endpoints.TrainingIdOf | screenshot_manager.py:319 | an id it extracts rebuilds the URL it came from |
| Endpoints.UploadUrlRoundTrip | screenshot_manager.py:319 | the training id is recovered from the upload URL |
| Endpoints.SyncUrlRoundTrip | screenshot_manager.py:338 | the training id is recovered from the sync URL |
| Endpoints.UploadIsNotSync | screenshot_manager.py:306 | no upload URL equals a sync URL, whatever the bases and ids |
| Endpoints.SentinelIsNoPng | screenshot_manager.py:308 | the end sentinel `DEBRIEFENDE` is not the name of any `.png` file |
| FileSystem.Without | screenshot_manager.py:226 | the files after removal are exactly the old ones except the removed path |
| FileSystem.Moved | trainee_manager.py:137 | after a move the files are the destination plus the old files other than the source |
| FileSystem.NamesMembers | screenshot_manager.py:39 | the listing holds exactly the basenames of the files directly inside the folder |
| FileSystem.SecondMoveOverwrites | trainee_manager.py:130-137 | two moves to the same destination leave the same files as deleting the first source and moving the second |
| FileSystem.Disk.ListDir | screenshot_manager.py:39 | definition of `os.listdir`; `FileSystem.NamesMembers` states what it lists |
| FileSystem.Disk.MakeDirs | trainee_manager.py:82 | the path is in the directory set afterwards; no other directory is recorded (see Left out) |
| FileSystem.Disk.Move | trainee_manager.py:136-139 | the move succeeds exactly when the OS allows it and the source exists; the files are then `Moved`, otherwise unchanged |
| FileSystem.Disk.Remove | screenshot_manager.py:225-230 | the removal succeeds exactly when the OS allows it and the file exists; the files are then `Without` the path, otherwise unchanged |
| FileSystem.Disk.WriteFile | main.py:191 | the saved file replaces any file of that path and becomes the newest entry |
| FileSystem.Disk.WriteSidecar | screenshot_manager.py:52-54 | the sidecar at the path holds the dumped metadata; other sidecars stay |
| Gallery.PngPaths | screenshot_manager.py:37-41 | the listed paths are at most as many as the names; `Gallery.PngPathsMembers` states which they are |
| Gallery.PngPathsMembers | screenshot_manager.py:37-41 | a path is listed exactly when it is the folder joined with a listed name ending in `.png`, so every listed path ends in `.png` |
| Gallery.Cell | screenshot_manager.py:115-116 | the column is below 3, the row is a multiple of 4, and row/4*3 + column gives the index back |
| Gallery.CellsDisjoint | screenshot_manager.py:115-160 | the four-row blocks of two thumbnails share a cell only when they are the same thumbnail |
| Gallery.TimestampOf | screenshot_manager.py:122-123 | definition of the shown timestamp: `None` where the `_` split has fewer than three fields; names whose fields are not a date are not distinguished (`strptime` is left out); `Gallery.TimestampRoundTrip` states its value on capture names |
| Gallery.TimestampRoundTrip | screenshot_manager.py:122-123 | for `screenshot_<date>_<time><rest>.png` with `_`-free date and time and a rest that is empty or starts with `_`, the shown timestamp is `<date>_<time>` |
| Gallery.Progress | screenshot_manager.py:280-281 | the progress bar ends at one past the last accepted item, which was accepted, and every later item was refused |
| Gallery.Failures | screenshot_manager.py:282 | at most one failure per item; `Gallery.FailuresReported` states which |
| Gallery.FailuresReported | screenshot_manager.py:277-283 | no failure is reported exactly when every item is accepted; every refused item is reported by its basename, and every reported name is the basename of a refused item |
| Gallery.OneRefusal | screenshot_manager.py:277-283 | when exactly one item is refused the others still go through, exactly that one is reported, and the bar ends full unless the refused item was last |
| Gallery.UploadAll | screenshot_manager.py:277-287 | every path is attempted once, in order; progress and failures are those of `Progress` and `Failures`; the viewer link is reported |
| Gallery.NewestPath | screenshot_manager.py:43 | the result is the first path with the latest creation time |
| Gallery.Loaded | screenshot_manager.py:45-50 | a missing sidecar loads as the fresh structure |
| Gallery.ScreenshotManager.constructor | screenshot_manager.py:12-29 | fields from the arguments; the screenshot folder and sidecar paths under the base folder; the screenshot folder is created; the listing is refreshed, the metadata in sync with disk, no debrief |
| Gallery.ScreenshotManager.Open | screenshot_manager.py:26-29 | the screenshot folder is created, then listed and the sidecar loaded |
| Gallery.ScreenshotManager.LoadScreenshots | screenshot_manager.py:36-43 | the list is the folder's `.png` paths; a non-empty list makes the last screenshot its first newest entry; an empty one leaves it as it was |
| Gallery.ScreenshotManager.LoadComments | screenshot_manager.py:45-50 | the in-memory metadata equals what the sidecar on disk loads as |
| Gallery.ScreenshotManager.SaveComments | screenshot_manager.py:52-54 | the sidecar on disk now holds the in-memory metadata |
| Gallery.ScreenshotManager.Refresh | screenshot_manager.py:247-249 | the list and last screenshot are re-read from disk |
| Gallery.ScreenshotManager.AddComment | screenshot_manager.py:199-215 | the dialog opens on the stored comment; a cancelled dialog changes nothing; an answer is stored under the basename, saved to the sidecar, and the view refreshed |
| Gallery.ScreenshotManager.AddCommentToLastScreenshot | screenshot_manager.py:217-222 | with no last screenshot nothing changes; otherwise the answer goes to the last screenshot's comment and is saved; a cancelled answer changes neither the metadata, the sidecar, the list nor the last screenshot |
| Gallery.ScreenshotManager.DeleteScreenshot | screenshot_manager.py:224-230 | the file is removed when possible and the view refreshed; the metadata (comment and live pointer) is never touched; a failed removal changes nothing |
| Gallery.ScreenshotManager.UploadScreenshot | screenshot_manager.py:318-335 | posts the basename to the upload URL and returns the server's verdict |
| Gallery.ScreenshotManager.SyncScreenshot | screenshot_manager.py:337-354 | posts the basename to the sync URL; only an accepted post goes live, saves and refreshes; a refused one changes nothing |
| Gallery.ScreenshotManager.StartDebrief | screenshot_manager.py:257-299 | with an empty list nothing changes; otherwise the debrief is on, the view is refreshed, and the upload report covers the refreshed list and ends with the viewer link |
| Gallery.ScreenshotManager.EndDebrief | screenshot_manager.py:301-316 | the debrief is off whatever the server answers, the sentinel is posted to the sync URL, and the view is refreshed |
| Gallery.ScreenshotManager.SendEndSignal | screenshot_manager.py:306-308 | the `requests.post` step: it sends the `EndSignal` of the gallery's base URL and id |
| Gallery.ScreenshotManager.ToggleDebrief | screenshot_manager.py:251-255 | a running debrief ends and sends the end signal; otherwise a debrief starts exactly when the list is non-empty, and its report covers the refreshed list (progress, refused names, viewer link); with an empty list the view is untouched; whenever a debrief ends or starts the view is refreshed; the metadata is untouched |
| TraineeManager.CanonicalName | trainee_manager.py:130-131 | definition of `screenshot_<timestamp>.png`; the `CanonicalName…` lemmas state its properties |
| TraineeManager.Destination | trainee_manager.py:130-132 | definition of `<training folder>/screenshots/<canonical name>`; `TraineeManager.CaptureIsListed` states what it gives |
| TraineeManager.CanonicalNameNoSep | trainee_manager.py:131 | a capture's canonical name contains no separator |
| TraineeManager.CanonicalNameTimestamp | trainee_manager.py:130-131 | the gallery reads back the timestamp a capture was named with |
| TraineeManager.CanonicalNameInjective | trainee_manager.py:130-132 | two captures get the same name exactly when their timestamps are equal |
| TraineeManager.CanonicalNameNotSentinel | trainee_manager.py:131 | no capture name equals the end-of-debrief sentinel |
| TraineeManager.CaptureIsListed | trainee_manager.py:126-137 | after the move, the relocated capture is listed by the gallery of its training folder |
| TraineeManager.WatcherForwards | trainee_manager.py:234-238 | definition of the watcher's test: a file, not a directory, whose extension lower-cases to `.png`; the `Watcher…` lemmas state its verdicts |
| TraineeManager.WatcherSeesName | trainee_manager.py:236-237 | the watcher's verdict on a file in any folder is its verdict on the file's own name |
| TraineeManager.WatcherTakesUpperCase | trainee_manager.py:234-238 | a file `<x>.PNG` in any watched folder is forwarded |
| TraineeManager.LowerPng | trainee_manager.py:237 | `.PNG` and `.png` both lower-case to `.png` |
| TraineeManager.WatcherRefusesJpg | trainee_manager.py:234-238 | a file `<x>.jpg` in any watched folder is not forwarded |
| TraineeManager.WatcherRefusesDirectory | trainee_manager.py:235 | a directory is never forwarded |
| TraineeManager.WatcherRefusesBareDotPng | trainee_manager.py:236-237 | a file named just `.png` in any folder has no extension and is not forwarded |
| TraineeManager.WatcherForwardsCanonical | trainee_manager.py:234-238 | a canonical capture name keeps the extension the watcher tests; the training folder it is moved to is not watched, so this is not a second event |
| TraineeManager.UpperCaseForwardedNotListed | trainee_manager.py:236-237 | a file `<x>.PNG` in any watched folder is forwarded, but a file of that name in a training's `screenshots` folder is not listed by the gallery |
| TraineeManager.Duration | trainee_manager.py:169-172 | minutes and seconds are below 60, and 3600·h + 60·m + s is the elapsed time |
| TraineeManager.DurationUnique | trainee_manager.py:169-172 | those conditions determine the split |
| TraineeManager.TraineeFolderName | trainee_manager.py:196 | definition of `<name>-<id>`; the two lemmas below state its properties |
| TraineeManager.TraineeFolderNameSplits | trainee_manager.py:196 | with a dash-free id, the folder name is the trainee name, a `-`, then the id, and that `-` is the last one |
| TraineeManager.TraineeFolderNameInjective | trainee_manager.py:196 | with dash-free ids, two folder names are equal exactly when both names and both ids are equal |
| TraineeManager.TraineeManagerApp.constructor | trainee_manager.py:34-39 | no session, id, gallery or start time; the capture folder is created |
| TraineeManager.TraineeManagerApp.ManageScreenshotManager | trainee_manager.py:141-152 | with no gallery open, one opens on the training folder and id with the default API base, or nothing opens when there is no folder; an open gallery is kept and refreshed, so at most one exists, and its comments, debrief mode and (with an empty folder) last screenshot are kept; the only directory created is `<folder>/screenshots` of a newly opened gallery |
| TraineeManager.TraineeManagerApp.OnManagerClose | trainee_manager.py:154-155 | the gallery reference is cleared |
| TraineeManager.TraineeManagerApp.StartTimer | trainee_manager.py:160-161 | the start time is the current time |
| TraineeManager.TraineeManagerApp.StopTimer | trainee_manager.py:164-175 | without a start time nothing is shown; otherwise the `Duration` of the elapsed time is shown; the start time is cleared |
| TraineeManager.TraineeManagerApp.StartTrainingMode | trainee_manager.py:69-89 | an empty selection or name changes nothing; otherwise a fresh id and `<root>/<trainee>/<training>` are recorded, even when another session runs; if the folder is created the mode is on, the stopwatch starts and `GalleryShown` holds: a new gallery is bound to the folder, the fresh id and the default API base, an open one keeps its comments and debrief mode; exactly the folder and, for a new gallery, its `screenshots` subfolder are created |
| TraineeManager.TraineeManagerApp.BeginSession | trainee_manager.py:82-89 | the mode is on, the stopwatch reads the current time, and `GalleryShown` holds: a gallery is open and refreshed, a new one bound to the folder, the session id and the default API base, an open one the same window with its comments and debrief mode; exactly the folder and, for a new gallery, `<folder>/screenshots` are created |
| TraineeManager.TraineeManagerApp.StopTrainingMode | trainee_manager.py:91-96 | mode off and folder cleared; the id and gallery are kept; the stopwatch reading is returned |
| TraineeManager.TraineeManagerApp.MoveScreenshotToTrainingFolder | trainee_manager.py:126-139 | the `screenshots` subfolder is created and the capture moves to `screenshot_<timestamp>.png` in it when possible |
| TraineeManager.TraineeManagerApp.CaptureIgnored | trainee_manager.py:119 | definition of the guard: no session, or no training folder |
| TraineeManager.TraineeManagerApp.OnNewScreenshotDetected | trainee_manager.py:118-124 | outside a session or without a folder nothing moves, no directory is created and the gallery is untouched; otherwise the capture is relocated, exactly `<folder>/screenshots` is created, and `GalleryShown` holds for the training folder (a new gallery bound to it, the session id and the default API base; an open one keeps its comments and debrief mode) |
| TraineeManager.TraineeManagerApp.FileCapture | trainee_manager.py:123-124 | the relocation then the gallery step: the capture moves when possible, exactly `<folder>/screenshots` is created, and `GalleryShown` holds for the folder (a new gallery bound to it, the session id and the default API base; an open one keeps its comments and debrief mode) |
| TraineeManager.TraineeManagerApp.AddTrainee | trainee_manager.py:187-209 | a cancelled or empty name or id creates nothing; otherwise `<name>-<id>` is created exactly when it does not exist and `makedirs` succeeds |
| MainApp.NoteName | main.py:246-250 | definition of `screenshot_<timestamp>[_<note>].png` with the stripped note; the `NoteName…` lemmas and `MainApp.NoteRoundTrip` state its properties |
| MainApp.NoteNameBlank | main.py:244-250 | an empty or whitespace-only note gives `screenshot_<timestamp>.png` |
| MainApp.NoteNameTimestamp | main.py:244-250 | the gallery reads back the timestamp from a name with or without a note |
| MainApp.NoteRoundTrip | main.py:244-250 | the stripped note is recovered from the relocated name |
| MainApp.NoteNameForwarded | main.py:287-291 | a relocated capture keeps the extension this variant's watcher tests; the training folder is not watched, so this is not a second event |
| MainApp.Fill | main.py:182-183 | definition of one guarded replacement; `MainApp.FillIsReplace` states that the guard does not matter |
| MainApp.FillParagraph | main.py:181-187 | definition of the three replacements on one paragraph; the `Fill…` lemmas state its properties |
| MainApp.FillIsReplace | main.py:181-187 | the `in` guards do not matter: a paragraph becomes the three replacements in the order `{Name}`, `{Training}`, `{Date}` |
| MainApp.FillWithoutPlaceholders | main.py:181-187 | a paragraph without placeholders is unchanged |
| MainApp.NoBraceNoPlaceholder | main.py:182 | a text without `{` contains no placeholder |
| MainApp.FillName | main.py:182-183 | a paragraph with one `{Name}` and no other brace gets the trainee folder name in its place and nothing else changes |
| MainApp.FillTemplate | main.py:181-187 | every paragraph is rewritten in place to its filled text |
| MainApp.TraineeManagerApp.constructor | main.py:72-78 | no session, no popup; the capture folder exists |
| MainApp.TraineeManagerApp.AddTrainee | main.py:120-142 | a cancelled or empty name or id creates nothing; otherwise `<name>-<id>` is created exactly when it does not exist and `makedirs` succeeds |
| MainApp.TraineeManagerApp.StartTrainingMode | main.py:147-166 | an empty selection or name changes nothing; otherwise the folder is recorded; if it is created the mode is on and the notes document is written |
| MainApp.TraineeManagerApp.CreateTrainingDoc | main.py:174-191 | without the template nothing happens; otherwise the paragraphs are filled and saved as `<training>_training_notes.docx` in the training folder |
| MainApp.TraineeManagerApp.StopTrainingMode | main.py:168-172 | mode off and folder cleared |
| MainApp.TraineeManagerApp.OnNewScreenshotDetected | main.py:206-221 | outside a session, without a folder, or when the file is gone nothing happens; otherwise a note popup opens for the capture |
| MainApp.TraineeManagerApp.OnEnter | main.py:244-260 | the `screenshots` subfolder is created, the capture moves to its note name there when possible, and the popup closes; with the session stopped the join fails and nothing changes |

## Left out

- The Tkinter GUI is left out: widgets, labels, buttons, the progress window,
  message boxes and the thumbnail rendering. Dialog answers are `Option`
  inputs and message boxes are no-ops.
- PIL image loading is left out. So are launching mspaint, the clipboard copy
  of the viewer link, and the double-click timer flag.
- The watchdog observer thread and `after(...)` scheduling are left out. A
  call scheduled with `after(...)` runs once the current handler has returned,
  and the model runs it at that point with nothing in between. So
  `StartDebrief` refreshes the list before the upload batch runs
  (screenshot_manager.py:298-299). Events that could run between the handler
  and the scheduled call, such as a training stopped before `main.py`'s popup
  opens, are not modelled.
- `time.sleep(0.5)` before the move is left out: it has no effect on state.
- HTTP is left out. Each POST is the `Request` value it would send. The
  server's verdict is a boolean, or a function of the path for the bulk
  upload. Exceptions and non-200 answers are the same refusal.
- Reading the file and base64-encoding it for the upload body are left out.
- JSON parsing of the sidecar is left out. A loaded sidecar is a `Meta` value
  whose keys may be missing; malformed JSON is not modelled.
- `load_config`/`save_config`, the startup `askdirectory` dialog,
  `update_trainee_list`, `start_observer`, `on_closing` and `os.startfile` are
  left out. None of them touches the modelled state.
- The python-docx document is a paragraph array. Run-level formatting is not
  modelled.
- `datetime.now()` and `strftime`/`strptime` are left out. Timestamps and
  dates are opaque strings, and the gallery's date reformatting is not
  modelled.
- `uuid.uuid4()` is left out. The new id is an input.
- `os.path.getctime` is a fixed function of the path on `Disk`.
- `os.listdir` returns the files in the order `Disk` holds them. Directories
  do not show up as listed names.
- FileSystem.Disk.MakeDirs: only the path itself is added to `dirs`. The
  missing parents that `os.makedirs` also creates are not recorded. The error
  it raises when a regular file already stands at the path is not modelled.
- PathNames.Join: drive letters and UNC prefixes are not modelled. Both `\`
  and `/` are separators, and `\` is inserted.
- Text.Lower: only ASCII letters are lower-cased. The result is only compared
  with `.png`.
- TraineeManager.Duration: takes whole seconds (an `int`) instead of the float
  difference of `time.time()` readings.
- Gallery.ScreenshotManager.AddCommentToLastScreenshot: does not restate the
  refresh that follows a stored answer. `AddComment` states it.
- TraineeManager.TraineeManagerApp.ManageScreenshotManager: with no training
  folder the gallery constructor raises a `TypeError` on the path join. The
  model has it open nothing. The exception reaching Tk is not modelled.
- MainApp.TraineeManagerApp.OnEnter: with the session stopped, the `TypeError`
  on the path join is modelled as no change. The popup stays open.
