/**
 * The current variant of the desktop app (`trainee_manager.py`): a training
 * session (active flag, training folder, training id, stopwatch), the
 * relocation of each new capture under a canonical name, the single gallery
 * window of the session, trainee-folder creation and the watcher's `.png`
 * filter.
 */
module TraineeManager {
  import opened Wrappers
  import opened Text
  import opened PathNames
  import opened Endpoints
  import opened FileSystem
  import opened Gallery

  /** `screenshot_<timestamp>.png`, the name a capture is relocated under. */
  function CanonicalName(timestamp: string): string
  {
    "screenshot_" + timestamp + ".png"
  }

  /** Where a capture taken at `timestamp` lands: the `screenshots` subfolder of the training folder. */
  function Destination(trainingFolder: string, timestamp: string): string
  {
    Join(Join(trainingFolder, "screenshots"), CanonicalName(timestamp))
  }

  lemma CanonicalNameNoSep(timestamp: string)
    requires !HasSep(timestamp)
    ensures !HasSep(CanonicalName(timestamp))
  {
    ScreenshotPrefixNoSep();
    assert !HasSep(".png") by {
      forall i | 0 <= i < |".png"| ensures !IsSep(".png"[i]) { }
    }
    NoSepConcat("screenshot_", timestamp);
    NoSepConcat("screenshot_" + timestamp, ".png");
  }

  /** The gallery reads back the timestamp a capture was named with. */
  lemma CanonicalNameTimestamp(date: string, time: string)
    requires '_' !in date && '_' !in time
    requires !HasSep(date) && !HasSep(time)
    ensures TimestampOf(CanonicalName(date + "_" + time)) == Some(date + "_" + time)
  {
    var x := "screenshot_" + date + "_" + time;
    var ts := date + "_" + time;
    assert "screenshot_" + ts == x;
    assert x + "" == x;
    var name := x + ".png";
    assert CanonicalName(ts) == name;
    TimestampRoundTrip(date, time, "");
  }

  /** Distinct timestamps give distinct names, and equal ones the same name: two captures in one second collide. */
  lemma CanonicalNameInjective(t1: string, t2: string)
    ensures CanonicalName(t1) == CanonicalName(t2) <==> t1 == t2
  {
    if CanonicalName(t1) == CanonicalName(t2) {
      var n := CanonicalName(t1);
      assert t1 == n[11..|n| - 4];
      assert t2 == n[11..|n| - 4];
    }
  }

  /** No capture can be mistaken for the end-of-debrief sentinel. */
  lemma CanonicalNameNotSentinel(timestamp: string)
    ensures CanonicalName(timestamp) != EndSentinel
  {
    SentinelIsNoPng(CanonicalName(timestamp));
  }

  /**
   * A relocated capture appears in the gallery of its training folder: once
   * the move has happened, the `.png` listing of the `screenshots`
   * subfolder holds its destination path.
   */
  lemma CaptureIsListed(fs: seq<string>, src: string, trainingFolder: string, timestamp: string)
    requires !HasSep(timestamp)
    ensures var sub := Join(trainingFolder, "screenshots");
      Destination(trainingFolder, timestamp) in PngPaths(sub, Names(Moved(fs, src, Destination(trainingFolder, timestamp)), sub))
  {
    var sub := Join(trainingFolder, "screenshots");
    var name := CanonicalName(timestamp);
    var dst := Destination(trainingFolder, timestamp);
    var moved := Moved(fs, src, dst);
    CanonicalNameNoSep(timestamp);
    JoinInFolder(sub, name);
    BasenameOfJoin(sub, name);
    NamesMembers(moved, sub);
    assert name in Names(moved, sub);
    assert EndsWith(name, ".png");
    PngPathsMembers(sub, Names(moved, sub));
  }

  /** `ScreenshotFolderHandler.on_created`: files whose extension is `.png` in any letter case. */
  predicate WatcherForwards(isDirectory: bool, path: string)
  {
    !isDirectory && Lower(Ext(path)) == ".png"
  }

  /** The watcher's verdict on a file in any folder is its verdict on the file's own name. */
  lemma WatcherSeesName(folder: string, name: string)
    requires !HasSep(name)
    ensures WatcherForwards(false, Join(folder, name)) == WatcherForwards(false, name)
  {
    ExtOfJoin(folder, name);
  }

  /** A capture saved with an upper-case `.PNG` in the watched folder passes the watcher. */
  lemma WatcherTakesUpperCase(folder: string, x: string)
    requires !HasSep(x) && |x| > 0 && x[0] != '.'
    ensures WatcherForwards(false, Join(folder, x + ".PNG"))
  {
    UpperCaseName(x);
    WatcherSeesName(folder, x + ".PNG");
  }

  lemma UpperCaseName(x: string)
    requires !HasSep(x) && |x| > 0 && x[0] != '.'
    ensures !HasSep(x + ".PNG") && WatcherForwards(false, x + ".PNG")
  {
    forall k | 0 <= k < |".PNG"| ensures !IsSep(".PNG"[k]) { }
    NoSepAppend(x, ".PNG");
    ExtOfSuffix(x, ".PNG");
    LowerPng();
  }

  lemma LowerPng()
    ensures Lower(".PNG") == ".png"
    ensures Lower(".png") == ".png"
  {
    var l := Lower(".PNG");
    assert |l| == 4;
    assert l[0] == '.' && l[1] == 'p' && l[2] == 'n' && l[3] == 'g';
    var l' := Lower(".png");
    assert |l'| == 4;
    assert l'[0] == '.' && l'[1] == 'p' && l'[2] == 'n' && l'[3] == 'g';
  }

  /** Another extension in the watched folder does not pass. */
  lemma WatcherRefusesJpg(folder: string, x: string)
    requires !HasSep(x) && |x| > 0 && x[0] != '.'
    ensures !WatcherForwards(false, Join(folder, x + ".jpg"))
  {
    JpgName(x);
    WatcherSeesName(folder, x + ".jpg");
  }

  lemma JpgName(x: string)
    requires !HasSep(x) && |x| > 0 && x[0] != '.'
    ensures !HasSep(x + ".jpg") && !WatcherForwards(false, x + ".jpg")
  {
    forall k | 0 <= k < |".jpg"| ensures !IsSep(".jpg"[k]) { }
    NoSepAppend(x, ".jpg");
    ExtOfSuffix(x, ".jpg");
    assert Lower(".jpg")[1] == 'j';
  }

  /** A directory does not pass, whatever its name. */
  lemma WatcherRefusesDirectory(path: string)
    ensures !WatcherForwards(true, path)
  {
  }

  /** A file named just `.png` in the watched folder has no extension, so it does not pass. */
  lemma WatcherRefusesBareDotPng(folder: string)
    ensures !WatcherForwards(false, Join(folder, ".png"))
  {
    BareDotPngName();
    WatcherSeesName(folder, ".png");
  }

  lemma BareDotPngName()
    ensures !HasSep(".png") && !WatcherForwards(false, ".png")
  {
    forall i | 0 <= i < |".png"| ensures !IsSep(".png"[i]) { }
    BaseLenIs(".png", 4);
    NoDotTailIs(".png", 3);
    assert AllDots(".png"[..0]);
  }

  /**
   * Every capture name the app chooses keeps the extension the watcher tests.
   * The training folder is not the watched one, so the relocated file raises
   * no second event; the lemma says only that the name stays a `.png` name.
   */
  lemma WatcherForwardsCanonical(timestamp: string)
    requires !HasSep(timestamp)
    ensures WatcherForwards(false, CanonicalName(timestamp))
  {
    var x := "screenshot_" + timestamp;
    ScreenshotPrefixNoSep();
    NoSepConcat("screenshot_", timestamp);
    assert x[0] == 's';
    ExtOfPng(x);
    assert CanonicalName(timestamp) == x + ".png";
    LowerPng();
  }

  lemma ScreenshotPrefixNoSep()
    ensures !HasSep("screenshot_")
  {
    forall i | 0 <= i < |"screenshot_"| ensures !IsSep("screenshot_"[i]) { }
  }

  /**
   * The watcher lower-cases the extension, the gallery does not: a file
   * `<x>.PNG` in the watched folder passes the watcher, but a file of that
   * name put into a training's `screenshots` folder by hand is not listed.
   * Captures the watcher forwards are renamed to `.png`, so they are listed.
   */
  lemma UpperCaseForwardedNotListed(watched: string, x: string, sub: string)
    requires !HasSep(x) && |x| > 0 && x[0] != '.'
    ensures WatcherForwards(false, Join(watched, x + ".PNG"))
    ensures PngPaths(sub, [x + ".PNG"]) == []
  {
    WatcherTakesUpperCase(watched, x);
    UpperCaseNotPng(x);
    SingleNotListed(sub, x + ".PNG");
  }

  lemma UpperCaseNotPng(x: string)
    ensures !EndsWith(x + ".PNG", ".png")
  {
    var n := x + ".PNG";
    assert n[|n| - 3] == 'P';
    assert n[|n| - 4..][1] == n[|n| - 3];
  }

  lemma SingleNotListed(folder: string, name: string)
    requires !EndsWith(name, ".png")
    ensures PngPaths(folder, [name]) == []
  {
    var names := [name];
    assert names[1..] == [];
  }

  /**
   * `divmod` of the elapsed seconds by 3600 and of the remainder by 60:
   * minutes and seconds below 60 that add back up to the elapsed time.
   */
  function Duration(elapsed: int): (hms: (int, int, int))
    ensures 0 <= hms.1 < 60 && 0 <= hms.2 < 60
    ensures 3600 * hms.0 + 60 * hms.1 + hms.2 == elapsed
  {
    var rem := elapsed % 3600;
    (elapsed / 3600, rem / 60, rem % 60)
  }

  /** Those conditions leave only one split. */
  lemma DurationUnique(elapsed: int, h: int, m: int, s: int)
    requires 0 <= m < 60 && 0 <= s < 60
    requires 3600 * h + 60 * m + s == elapsed
    ensures Duration(elapsed) == (h, m, s)
  {
    var r := 60 * m + s;
    assert elapsed / 3600 == h && elapsed % 3600 == r;
    assert r / 60 == m && r % 60 == s;
  }

  /** The name of a trainee's folder: `<name>-<id>`. */
  function TraineeFolderName(name: string, id: string): string
  {
    name + "-" + id
  }

  /** The `-` in front of a dash-free id is the last `-` of the folder name. */
  lemma TraineeFolderNameSplits(name: string, id: string)
    requires '-' !in id
    ensures var n := TraineeFolderName(name, id);
      && n[..|name|] == name && n[|name|] == '-' && n[|name| + 1..] == id
      && forall j :: |name| < j < |n| ==> n[j] != '-'
  {
    var n := TraineeFolderName(name, id);
    forall j | |name| < j < |n| ensures n[j] != '-' {
      assert n[j] == id[j - |name| - 1];
    }
  }

  /** With dash-free ids, two trainees share a folder name only when both name and id agree. */
  lemma TraineeFolderNameInjective(name1: string, id1: string, name2: string, id2: string)
    requires '-' !in id1 && '-' !in id2
    ensures TraineeFolderName(name1, id1) == TraineeFolderName(name2, id2) <==> name1 == name2 && id1 == id2
  {
    if TraineeFolderName(name1, id1) == TraineeFolderName(name2, id2) {
      TraineeFolderNameSplits(name1, id1);
      TraineeFolderNameSplits(name2, id2);
      assert |name1| == |name2|;
    }
  }

  class TraineeManagerApp {
    const traineeFolder: string
    /** The watched capture folder (`DEFAULT_SCREENSHOT_FOLDER`). */
    const screenshotFolder: string
    const disk: Disk
    var trainingModeActive: bool
    var currentTrainingFolder: Option<string>
    var currentTrainingId: Option<string>
    /** The open gallery window of the session, if any. */
    var screenshotManager: ScreenshotManager?
    /** `training_start_time`; None where the attribute is absent. */
    var trainingStartTime: Option<int>

    /** A training folder is only ever set after its id, and the gallery looks at the app's disk. */
    ghost predicate Valid()
      reads this`currentTrainingFolder, this`currentTrainingId, this`screenshotManager
    {
      && (currentTrainingFolder.Some? ==> currentTrainingId.Some?)
      && (screenshotManager != null ==> screenshotManager.disk == disk)
    }

    /**
     * After a gallery step: a gallery is open and lists its folder; one opened
     * by the step is bound to `folder`, the session id and the default server;
     * one that was already open is the same window with its notes kept.
     */
    twostate predicate GalleryShown(folder: string)
      reads this`screenshotManager, this`currentTrainingId
      reads if screenshotManager == null then {} else {screenshotManager, screenshotManager.disk}
    {
      && screenshotManager != null && screenshotManager.Refreshed()
      && (old(screenshotManager) == null ==>
            fresh(screenshotManager) && screenshotManager.baseFolder == folder
            && currentTrainingId.Some? && screenshotManager.trainingId == currentTrainingId.value
            && screenshotManager.apiBaseUrl == DefaultApiBase)
      && (old(screenshotManager) != null ==> screenshotManager == old(screenshotManager) && screenshotManager.NotesKept())
    }

    /** Start-up once the trainee root folder is known: no session, no gallery, the capture folder exists. */
    constructor (traineeFolder: string, screenshotFolder: string, disk: Disk)
      modifies disk`dirs
      ensures this.traineeFolder == traineeFolder && this.screenshotFolder == screenshotFolder && this.disk == disk
      ensures !trainingModeActive && currentTrainingFolder == None && currentTrainingId == None
      ensures screenshotManager == null && trainingStartTime == None
      ensures disk.dirs == old(disk.dirs) + {screenshotFolder}
      ensures Valid()
    {
      this.traineeFolder, this.screenshotFolder, this.disk := traineeFolder, screenshotFolder, disk;
      trainingModeActive, currentTrainingFolder, currentTrainingId := false, None, None;
      screenshotManager, trainingStartTime := null, None;
      new;
      disk.MakeDirs(screenshotFolder);
    }

    /**
     * `manage_screenshot_manager`: opens a gallery on the training folder when
     * none is open, otherwise refreshes the open one, which stays bound to the
     * folder and id it was opened with. With no training folder the gallery
     * constructor fails on the path join and nothing opens.
     */
    method ManageScreenshotManager()
      requires Valid()
      modifies this`screenshotManager, disk`dirs
      modifies if screenshotManager == null then {} else {screenshotManager}
      ensures Valid()
      ensures disk.dirs == old(disk.dirs) +
        if old(screenshotManager) == null && currentTrainingFolder.Some? then {Join(currentTrainingFolder.value, "screenshots")} else {}
      ensures old(screenshotManager) != null ==> screenshotManager == old(screenshotManager)
      ensures old(screenshotManager) != null ==> screenshotManager.Refreshed()
      ensures old(screenshotManager) != null ==> screenshotManager.NotesKept()
      ensures old(screenshotManager) == null && currentTrainingFolder.None? ==> screenshotManager == null
      ensures old(screenshotManager) == null && currentTrainingFolder.Some? ==>
        screenshotManager != null && fresh(screenshotManager)
      ensures old(screenshotManager) == null && currentTrainingFolder.Some? && screenshotManager != null ==>
        screenshotManager.baseFolder == currentTrainingFolder.value
        && screenshotManager.trainingId == currentTrainingId.value
        && screenshotManager.apiBaseUrl == DefaultApiBase
      ensures old(screenshotManager) == null && currentTrainingFolder.Some? && screenshotManager != null ==>
        screenshotManager.Refreshed() && screenshotManager.InSync() && !screenshotManager.debriefActive
    {
      if screenshotManager == null {
        if currentTrainingFolder.None? {
          return;
        }
        var m := new ScreenshotManager(currentTrainingFolder.value, currentTrainingId.value, DefaultApiBase, disk);
        screenshotManager := m;
      } else {
        screenshotManager.Refresh();
      }
    }

    /** `on_manager_close`: the gallery window is gone; the next capture opens a new one. */
    method OnManagerClose()
      modifies this`screenshotManager
      ensures screenshotManager == null
    {
      screenshotManager := null;
    }

    /** `start_timer` */
    method StartTimer(now: int)
      modifies this`trainingStartTime
      ensures trainingStartTime == Some(now)
    {
      trainingStartTime := Some(now);
    }

    /**
     * `stop_timer`: without a start time it only reports that; otherwise it
     * shows the elapsed time split into hours, minutes and seconds and forgets
     * the start time.
     */
    method StopTimer(now: int) returns (shown: Option<(int, int, int)>)
      modifies this`trainingStartTime
      ensures trainingStartTime == None
      ensures old(trainingStartTime).None? ==> shown == None
      ensures old(trainingStartTime).Some? ==> shown == Some(Duration(now - old(trainingStartTime).value))
    {
      if trainingStartTime.None? {
        return None;
      }
      shown := Some(Duration(now - trainingStartTime.value));
      trainingStartTime := None;
    }

    /**
     * `start_training_mode`: refused without a selected trainee or with a
     * cancelled or empty training name. Otherwise a new id and the folder
     * `<root>/<trainee>/<training>` are recorded first; if the folder cannot
     * be created the error ends the call there, with the mode unchanged. On
     * success the mode is on, the gallery opens or refreshes and the stopwatch
     * starts. A running session is not guarded against: it is overwritten.
     */
    method StartTrainingMode(selected: string, trainingName: Option<string>, freshId: string, mkdirOk: bool, now: int)
      requires Valid()
      modifies this`currentTrainingId, this`currentTrainingFolder, this`trainingModeActive
      modifies this`screenshotManager, this`trainingStartTime, disk`dirs
      modifies if screenshotManager == null then {} else {screenshotManager}
      ensures Valid()
      ensures selected == "" || trainingName.None? || trainingName.value == "" ==>
        currentTrainingId == old(currentTrainingId) && currentTrainingFolder == old(currentTrainingFolder)
        && trainingModeActive == old(trainingModeActive) && screenshotManager == old(screenshotManager)
        && trainingStartTime == old(trainingStartTime) && disk.dirs == old(disk.dirs)
      ensures selected != "" && trainingName.Some? && trainingName.value != "" ==>
        currentTrainingId == Some(freshId)
        && currentTrainingFolder == Some(Join(Join(traineeFolder, selected), trainingName.value))
      ensures selected != "" && trainingName.Some? && trainingName.value != "" && !mkdirOk ==>
        trainingModeActive == old(trainingModeActive) && screenshotManager == old(screenshotManager)
        && trainingStartTime == old(trainingStartTime) && disk.dirs == old(disk.dirs)
      ensures selected != "" && trainingName.Some? && trainingName.value != "" && mkdirOk ==>
        trainingModeActive && trainingStartTime == Some(now) && GalleryShown(currentTrainingFolder.value)
      ensures selected != "" && trainingName.Some? && trainingName.value != "" && mkdirOk ==>
        disk.dirs == old(disk.dirs) + {currentTrainingFolder.value}
          + if old(screenshotManager) == null then {Join(currentTrainingFolder.value, "screenshots")} else {}
      ensures old(screenshotManager) != null ==> screenshotManager == old(screenshotManager)
      ensures old(screenshotManager) != null ==> screenshotManager.NotesKept()
    {
      if selected != "" && trainingName.Some? && trainingName.value != "" {
        var folder := Join(Join(traineeFolder, selected), trainingName.value);
        currentTrainingId, currentTrainingFolder := Some(freshId), Some(folder);
        assert Valid();
        if mkdirOk {
          BeginSession(folder, now);
        }
      }
    }

    /** The steps after the training folder is recorded: it is created, the mode goes on, the gallery opens or refreshes, the stopwatch starts. */
    method BeginSession(folder: string, now: int)
      requires Valid() && currentTrainingFolder == Some(folder)
      modifies this`trainingModeActive, this`screenshotManager, this`trainingStartTime, disk`dirs
      modifies if screenshotManager == null then {} else {screenshotManager}
      ensures Valid()
      ensures trainingModeActive && trainingStartTime == Some(now)
      ensures GalleryShown(folder)
      ensures disk.dirs == old(disk.dirs) + {folder} + if old(screenshotManager) == null then {Join(folder, "screenshots")} else {}
    {
      disk.MakeDirs(folder);
      trainingModeActive := true;
      ManageScreenshotManager();
      assert GalleryShown(folder);
      StartTimer(now);
    }

    /**
     * `stop_training_mode`: the mode is off and the folder forgotten; the id
     * and an open gallery are kept. Returns what the stopwatch shows.
     */
    method StopTrainingMode(now: int) returns (shown: Option<(int, int, int)>)
      requires Valid()
      modifies this`trainingModeActive, this`currentTrainingFolder, this`trainingStartTime
      ensures Valid()
      ensures !trainingModeActive && currentTrainingFolder == None
      ensures trainingStartTime == None
      ensures old(trainingStartTime).None? ==> shown == None
      ensures old(trainingStartTime).Some? ==> shown == Some(Duration(now - old(trainingStartTime).value))
    {
      trainingModeActive := false;
      currentTrainingFolder := None;
      shown := StopTimer(now);
    }

    /**
     * `move_screenshot_to_training_folder`: the capture goes to
     * `<training folder>/screenshots/screenshot_<timestamp>.png`; a failed
     * move is only reported.
     */
    method MoveScreenshotToTrainingFolder(path: string, timestamp: string, ioOk: bool) returns (moved: bool)
      requires currentTrainingFolder.Some?
      modifies disk`dirs, disk`files
      ensures disk.dirs == old(disk.dirs) + {Join(currentTrainingFolder.value, "screenshots")}
      ensures moved == (ioOk && path in old(disk.files))
      ensures disk.files == if moved then Moved(old(disk.files), path, Destination(currentTrainingFolder.value, timestamp)) else old(disk.files)
    {
      var subfolder := Join(currentTrainingFolder.value, "screenshots");
      disk.MakeDirs(subfolder);
      moved := disk.Move(path, Join(subfolder, CanonicalName(timestamp)), ioOk);
    }

    /** Captures are ignored outside a session or without a training folder. */
    predicate CaptureIgnored()
      reads this`trainingModeActive, this`currentTrainingFolder
    {
      !trainingModeActive || currentTrainingFolder.None? || currentTrainingFolder.value == ""
    }

    /**
     * `on_new_screenshot_detected`: ignored outside a session or without a
     * training folder; otherwise the capture is relocated and the gallery
     * opened or refreshed.
     */
    method OnNewScreenshotDetected(path: string, timestamp: string, ioOk: bool) returns (moved: bool)
      requires Valid()
      modifies disk`dirs, disk`files, this`screenshotManager
      modifies if screenshotManager == null then {} else {screenshotManager}
      ensures Valid()
      ensures CaptureIgnored() ==> !moved && disk.files == old(disk.files) && disk.dirs == old(disk.dirs)
      ensures CaptureIgnored() ==> screenshotManager == old(screenshotManager)
      ensures CaptureIgnored() && screenshotManager != null ==> unchanged(screenshotManager)
      ensures !CaptureIgnored() ==> moved == (ioOk && path in old(disk.files))
      ensures !CaptureIgnored() ==>
        disk.files == if moved then Moved(old(disk.files), path, Destination(currentTrainingFolder.value, timestamp)) else old(disk.files)
      ensures !CaptureIgnored() ==> GalleryShown(currentTrainingFolder.value)
      ensures !CaptureIgnored() ==> disk.dirs == old(disk.dirs) + {Join(currentTrainingFolder.value, "screenshots")}
    {
      if CaptureIgnored() {
        return false;
      }
      var folder := currentTrainingFolder.value;
      moved := FileCapture(path, timestamp, ioOk, folder);
      assert currentTrainingFolder == Some(folder);
    }

    /** The capture is relocated, then the gallery is opened or refreshed. */
    method FileCapture(path: string, timestamp: string, ioOk: bool, folder: string) returns (moved: bool)
      requires Valid() && trainingModeActive && currentTrainingFolder == Some(folder) && folder != ""
      modifies disk`dirs, disk`files, this`screenshotManager
      modifies if screenshotManager == null then {} else {screenshotManager}
      ensures Valid()
      ensures moved == (ioOk && path in old(disk.files))
      ensures disk.files == if moved then Moved(old(disk.files), path, Destination(folder, timestamp)) else old(disk.files)
      ensures GalleryShown(folder)
      ensures disk.dirs == old(disk.dirs) + {Join(folder, "screenshots")}
    {
      moved := MoveScreenshotToTrainingFolder(path, timestamp, ioOk);
      assert Valid();
      ManageScreenshotManager();
    }

    /**
     * `add_trainee`: refused for a cancelled or empty name or id and for an
     * existing `<name>-<id>` entry; a failing `makedirs` is only reported.
     * Returns the created folder.
     */
    method AddTrainee(name: Option<string>, id: Option<string>, mkdirOk: bool) returns (created: Option<string>)
      modifies disk`dirs
      ensures name.None? || name.value == "" || id.None? || id.value == "" ==>
        created == None && disk.dirs == old(disk.dirs)
      ensures name.Some? && name.value != "" && id.Some? && id.value != "" ==>
        var path := Join(traineeFolder, TraineeFolderName(name.value, id.value));
        (created.Some? <==> !old(disk.Exists(path)) && mkdirOk)
        && (created.Some? ==> created.value == path && disk.dirs == old(disk.dirs) + {path})
        && (created.None? ==> disk.dirs == old(disk.dirs))
    {
      if name.None? || name.value == "" || id.None? || id.value == "" {
        return None;
      }
      var path := Join(traineeFolder, TraineeFolderName(name.value, id.value));
      if disk.Exists(path) || !mkdirOk {
        return None;
      }
      disk.MakeDirs(path);
      created := Some(path);
    }
  }
}
