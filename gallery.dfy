/**
 * The screenshot gallery and debrief controller of one training folder
 * (`ScreenshotManager`): the `.png` listing, the metadata sidecar edits, the
 * debrief toggle with its bulk upload, and the grid and timestamp
 * arithmetic of the thumbnail view.
 */
module Gallery {
  import opened Wrappers
  import opened Text
  import opened PathNames
  import opened Metadata
  import opened Endpoints
  import opened FileSystem

  /** The gallery's list: the listed names ending in `.png` (case-sensitive), joined onto the folder, in listing order. */
  function PngPaths(folder: string, names: seq<string>): (r: seq<string>)
    ensures |r| <= |names|
  {
    if |names| == 0 then []
    else
      var rest := PngPaths(folder, names[1..]);
      if EndsWith(names[0], ".png") then [Join(folder, names[0])] + rest else rest
  }

  /**
   * The gallery lists exactly the `.png` names of the folder, each joined
   * onto the folder path; so every listed path ends in `.png`.
   */
  lemma {:induction false} PngPathsMembers(folder: string, names: seq<string>)
    ensures forall p :: p in PngPaths(folder, names) <==> exists f :: f in names && EndsWith(f, ".png") && p == Join(folder, f)
    ensures forall p :: p in PngPaths(folder, names) ==> EndsWith(p, ".png")
  {
    if |names| > 0 {
      PngPathsMembers(folder, names[1..]);
      assert forall f :: f in names <==> f == names[0] || f in names[1..];
      if EndsWith(names[0], ".png") {
        JoinKeepsSuffix(folder, names[0], ".png");
      }
    }
  }

  lemma JoinKeepsSuffix(folder: string, name: string, suffix: string)
    requires EndsWith(name, suffix)
    ensures EndsWith(Join(folder, name), suffix)
  {
    if |name| > 0 && IsSep(name[0]) {
      assert Join(folder, name) == name;
    } else if folder == "" || IsSep(folder[|folder| - 1]) {
      assert Join(folder, name) == folder + name;
      EndsWithConcat(folder, name, suffix);
    } else {
      var sep := folder + "\\";
      assert Join(folder, name) == sep + name;
      EndsWithConcat(sep, name, suffix);
    }
  }

  /** Grid cell of thumbnail `idx`: row `idx // 3 * 4`, column `idx % 3`. */
  function Cell(idx: nat): (rc: (nat, nat))
    ensures rc.1 < 3 && rc.0 % 4 == 0
    ensures rc.0 / 4 * 3 + rc.1 == idx
  {
    (idx / 3 * 4, idx % 3)
  }

  /**
   * Each thumbnail owns a block of four grid rows in its column (image,
   * timestamp, status, comment): two blocks share a cell only when they
   * belong to the same thumbnail.
   */
  lemma CellsDisjoint(i: nat, j: nat, a: nat, b: nat)
    requires a < 4 && b < 4
    ensures (Cell(i).0 + a, Cell(i).1) == (Cell(j).0 + b, Cell(j).1) ==> i == j
  {
    var qi, qj := i / 3, j / 3;
    assert (qi * 4 + a) / 4 == qi;
    assert (qj * 4 + b) / 4 == qj;
    assert i == qi * 3 + i % 3 && j == qj * 3 + j % 3;
  }

  /**
   * The timestamp shown under a thumbnail: the second and third `_` fields of
   * the file name's stem; None where the program fails with an index error and
   * skips the tile.
   */
  function TimestampOf(filename: string): Option<string>
  {
    var parts := Split(Stem(filename), '_');
    if |parts| < 3 then None else Some(parts[1] + "_" + parts[2])
  }

  lemma NoSepConcat(a: string, b: string)
    requires !HasSep(a) && !HasSep(b)
    ensures !HasSep(a + b)
  {
    forall i | 0 <= i < |a + b| ensures !IsSep((a + b)[i]) {
      if i < |a| { assert (a + b)[i] == a[i]; } else { assert (a + b)[i] == b[i - |a|]; }
    }
  }

  /**
   * Names of the form `screenshot_<date>_<time><rest>.png`, where date and time
   * hold no `_` and the rest is empty or starts with `_`, give back
   * `<date>_<time>`: this covers the names of both relocation variants.
   */
  lemma TimestampRoundTrip(date: string, time: string, rest: string)
    requires '_' !in date && '_' !in time
    requires rest == "" || rest[0] == '_'
    requires !HasSep(date) && !HasSep(time) && !HasSep(rest)
    ensures TimestampOf("screenshot_" + date + "_" + time + rest + ".png") == Some(date + "_" + time)
  {
    var x := "screenshot_" + date + "_" + time + rest;
    CanonicalStem(date, time, rest);
    CanonicalFields(date, time, rest);
  }

  lemma CanonicalStem(date: string, time: string, rest: string)
    requires !HasSep(date) && !HasSep(time) && !HasSep(rest)
    ensures Stem("screenshot_" + date + "_" + time + rest + ".png") == "screenshot_" + date + "_" + time + rest
  {
    assert !HasSep("screenshot_") by {
      forall i | 0 <= i < |"screenshot_"| ensures !IsSep("screenshot_"[i]) { }
    }
    assert !HasSep("_") by {
      assert forall i :: 0 <= i < |"_"| ==> "_"[i] == '_';
    }
    NoSepConcat("screenshot_", date);
    NoSepConcat("screenshot_" + date, "_");
    NoSepConcat("screenshot_" + date + "_", time);
    NoSepConcat("screenshot_" + date + "_" + time, rest);
    ExtOfPng("screenshot_" + date + "_" + time + rest);
  }

  lemma CanonicalFields(date: string, time: string, rest: string)
    requires '_' !in date && '_' !in time
    requires rest == "" || rest[0] == '_'
    ensures var parts := Split("screenshot_" + date + "_" + time + rest, '_');
      |parts| >= 3 && parts[1] == date && parts[2] == time
  {
    ScreenshotPrefix();
    HeadFields("screenshot", date, time, rest);
  }

  lemma ScreenshotPrefix()
    ensures "screenshot" + "_" == "screenshot_"
    ensures '_' !in "screenshot"
  {
  }

  lemma HeadFields(head: string, date: string, time: string, rest: string)
    requires '_' !in head && '_' !in date && '_' !in time
    requires rest == "" || rest[0] == '_'
    ensures var parts := Split(head + "_" + date + "_" + time + rest, '_');
      |parts| >= 3 && parts[1] == date && parts[2] == time
  {
    var tail1 := time + rest;
    var tail2 := date + "_" + tail1;
    FirstField(time, rest);
    FieldAfterHead(date, tail1);
    FieldAfterHead(head, tail2);
    Regroup(head, date, time, rest);
  }

  lemma Regroup(head: string, date: string, time: string, rest: string)
    ensures head + "_" + (date + "_" + (time + rest)) == head + "_" + date + "_" + time + rest
  {
  }

  lemma FirstField(time: string, rest: string)
    requires '_' !in time
    requires rest == "" || rest[0] == '_'
    ensures Split(time + rest, '_')[0] == time
  {
    if rest == "" {
      assert time + rest == time;
      SplitWhole(time, '_');
    } else {
      assert time + rest == time + ['_'] + rest[1..];
      SplitHead(time, '_', rest[1..]);
    }
  }

  lemma FieldAfterHead(date: string, tail: string)
    requires '_' !in date
    ensures Split(date + "_" + tail, '_') == [date] + Split(tail, '_')
  {
    assert date + "_" + tail == date + ['_'] + tail;
    SplitHead(date, '_', tail);
  }

  /** Progress bar value after a bulk upload: one past the last accepted item, 0 when none was accepted. */
  function Progress(paths: seq<string>, accepts: string -> bool): (n: nat)
    ensures n <= |paths|
    ensures n > 0 ==> accepts(paths[n - 1])
    ensures forall k :: n <= k < |paths| ==> !accepts(paths[k])
  {
    if |paths| == 0 then 0
    else if accepts(paths[|paths| - 1]) then |paths|
    else Progress(paths[..|paths| - 1], accepts)
  }

  /** The file names reported as failed uploads, in list order. */
  function Failures(paths: seq<string>, accepts: string -> bool): (r: seq<string>)
    ensures |r| <= |paths|
  {
    if |paths| == 0 then []
    else
      var init := paths[..|paths| - 1];
      var last := paths[|paths| - 1];
      Failures(init, accepts) + (if accepts(last) then [] else [Basename(last)])
  }

  /**
   * No failure is reported exactly when every item is accepted, every
   * refused item is reported by name, and every reported name is that of a
   * refused item.
   */
  lemma {:induction false} FailuresReported(paths: seq<string>, accepts: string -> bool)
    ensures Failures(paths, accepts) == [] <==> forall k :: 0 <= k < |paths| ==> accepts(paths[k])
    ensures forall k :: 0 <= k < |paths| && !accepts(paths[k]) ==> Basename(paths[k]) in Failures(paths, accepts)
    ensures forall x :: x in Failures(paths, accepts) ==> RefusedName(paths, accepts, x)
  {
    forall x | x in Failures(paths, accepts) ensures RefusedName(paths, accepts, x) {
      FailureIsRefused(paths, accepts, x);
    }
    if |paths| > 0 {
      var init := paths[..|paths| - 1];
      var last := paths[|paths| - 1];
      var before := Failures(init, accepts);
      var tail: seq<string> := if accepts(last) then [] else [Basename(last)];
      assert Failures(paths, accepts) == before + tail;
      FailuresReported(init, accepts);
      forall k | 0 <= k < |init| ensures paths[k] == init[k] { }
      forall k | 0 <= k < |paths| && !accepts(paths[k]) ensures Basename(paths[k]) in before + tail {
        if k < |init| {
          assert Basename(init[k]) in before;
        } else {
          assert tail == [Basename(paths[k])];
        }
      }
    }
  }

  /** `x` is the basename of an item the server refused. */
  ghost predicate RefusedName(paths: seq<string>, accepts: string -> bool, x: string)
  {
    exists k :: 0 <= k < |paths| && !accepts(paths[k]) && Basename(paths[k]) == x
  }

  /** A reported name belongs to an item that was refused. */
  lemma {:induction false} FailureIsRefused(paths: seq<string>, accepts: string -> bool, x: string)
    requires x in Failures(paths, accepts)
    ensures RefusedName(paths, accepts, x)
  {
    var init := paths[..|paths| - 1];
    var last := paths[|paths| - 1];
    assert paths == init + [last];
    if x in Failures(init, accepts) {
      FailureIsRefused(init, accepts, x);
      var k :| 0 <= k < |init| && !accepts(init[k]) && Basename(init[k]) == x;
      assert paths[k] == init[k];
    } else {
      assert !accepts(paths[|paths| - 1]) && Basename(paths[|paths| - 1]) == x;
    }
  }

  /**
   * A batch in which exactly item `k` is refused: the others still go
   * through, exactly one failure is reported, and the progress bar ends full
   * unless the refused item was the last one.
   */
  lemma {:induction false} OneRefusal(paths: seq<string>, accepts: string -> bool, k: nat)
    requires k < |paths| && !accepts(paths[k])
    requires forall j :: 0 <= j < |paths| && j != k ==> accepts(paths[j])
    ensures Failures(paths, accepts) == [Basename(paths[k])]
    ensures Progress(paths, accepts) == if k == |paths| - 1 then k else |paths|
  {
    var init := paths[..|paths| - 1];
    if k == |paths| - 1 {
      assert forall j :: 0 <= j < |init| ==> accepts(init[j]);
      FailuresReported(init, accepts);
      if k > 0 {
        assert accepts(init[|init| - 1]);
      }
    } else {
      assert init[k] == paths[k];
      OneRefusal(init, accepts, k);
    }
  }

  datatype UploadReport = UploadReport(attempted: seq<string>, progress: nat, failed: seq<string>, link: string)

  /**
   * The bulk upload of a debrief: every path is attempted once, in list
   * order, whatever happened to the ones before; an accepted item sets the
   * progress bar to its position, a refused one is reported by name.
   */
  method UploadAll(paths: seq<string>, accepts: string -> bool, link: string) returns (report: UploadReport)
    ensures report == UploadReport(paths, Progress(paths, accepts), Failures(paths, accepts), link)
  {
    var attempted, progress, failed := [], 0, [];
    for idx := 0 to |paths|
      invariant attempted == paths[..idx]
      invariant progress == Progress(paths[..idx], accepts)
      invariant failed == Failures(paths[..idx], accepts)
    {
      assert paths[..idx + 1][..idx] == paths[..idx];
      attempted := attempted + [paths[idx]];
      if accepts(paths[idx]) {
        progress := idx + 1;
      } else {
        failed := failed + [Basename(paths[idx])];
      }
    }
    assert paths[..|paths|] == paths;
    report := UploadReport(attempted, progress, failed, link);
  }

  /** Position `k` holds the first of the newest entries by creation time. */
  ghost predicate FirstNewestAt(paths: seq<string>, ctime: string -> int, k: nat)
  {
    k < |paths|
    && (forall j :: 0 <= j < |paths| ==> ctime(paths[j]) <= ctime(paths[k]))
    && (forall j :: 0 <= j < k ==> ctime(paths[j]) < ctime(paths[k]))
  }

  /** `max(paths, key=ctime)`: the first path with the latest creation time. */
  method NewestPath(paths: seq<string>, ctime: string -> int) returns (k: nat, newest: string)
    requires |paths| > 0
    ensures FirstNewestAt(paths, ctime, k) && newest == paths[k]
  {
    k := 0;
    for i := 1 to |paths|
      invariant k < i
      invariant forall j :: 0 <= j < i ==> ctime(paths[j]) <= ctime(paths[k])
      invariant forall j :: 0 <= j < k ==> ctime(paths[j]) < ctime(paths[k])
    {
      if ctime(paths[i]) > ctime(paths[k]) {
        k := i;
      }
    }
    newest := paths[k];
  }

  /** What a sidecar path yields when loaded: its content, or the fresh structure when there is none. */
  function Loaded(sidecars: map<string, Meta>, file: string): (m: Meta)
    ensures file !in sidecars ==> m == Fresh()
  {
    if file in sidecars then sidecars[file] else Fresh()
  }

  class ScreenshotManager {
    const baseFolder: string
    const trainingId: string
    const apiBaseUrl: string
    const screenshotFolder: string
    const commentsFile: string
    const disk: Disk
    /** Paths of the listed screenshots, rebuilt by every refresh. */
    var screenshots: seq<string>
    /** The in-memory sidecar (`self.comments`). */
    var comments: Meta
    var debriefActive: bool
    var lastScreenshotPath: Option<string>

    /** The listing matches the folder on disk and the last screenshot is the first newest of it. */
    ghost predicate Refreshed()
      reads this`screenshots, this`lastScreenshotPath, disk`files
    {
      && screenshots == PngPaths(screenshotFolder, disk.ListDir(screenshotFolder))
      && (screenshots != [] ==>
            lastScreenshotPath.Some? && exists k: nat :: FirstNewestAt(screenshots, disk.ctime, k) && screenshots[k] == lastScreenshotPath.value)
    }

    /** Loading the sidecar from disk gives back the in-memory metadata. */
    ghost predicate InSync()
      reads this`comments, disk`sidecars
    {
      comments == Loaded(disk.sidecars, commentsFile)
    }

    /**
     * Across a re-listing the comments and the debrief mode are kept, and so
     * is the last screenshot when the folder holds none.
     */
    twostate predicate NotesKept()
      reads this`comments, this`debriefActive, this`screenshots, this`lastScreenshotPath
    {
      && comments == old(comments)
      && debriefActive == old(debriefActive)
      && (screenshots == [] ==> lastScreenshotPath == old(lastScreenshotPath))
    }

    constructor (baseFolder: string, trainingId: string, apiBaseUrl: string, disk: Disk)
      modifies disk`dirs
      ensures this.baseFolder == baseFolder && this.trainingId == trainingId
      ensures this.apiBaseUrl == apiBaseUrl && this.disk == disk
      ensures screenshotFolder == Join(baseFolder, "screenshots")
      ensures commentsFile == Join(baseFolder, "comments.json")
      ensures disk.dirs == old(disk.dirs) + {screenshotFolder}
      ensures Refreshed() && (screenshots == [] ==> lastScreenshotPath == None)
      ensures InSync() && !debriefActive
    {
      this.baseFolder, this.trainingId, this.apiBaseUrl, this.disk := baseFolder, trainingId, apiBaseUrl, disk;
      screenshotFolder := Join(baseFolder, "screenshots");
      commentsFile := Join(baseFolder, "comments.json");
      screenshots, comments, debriefActive, lastScreenshotPath := [], Meta(None, None, None), false, None;
      new;
      Open();
    }

    /** The start-up steps of the constructor: the screenshot folder is created, then listed, and the sidecar is read. */
    method Open()
      modifies disk`dirs, this`screenshots, this`lastScreenshotPath, this`comments
      ensures disk.dirs == old(disk.dirs) + {screenshotFolder}
      ensures Refreshed() && (screenshots == [] ==> lastScreenshotPath == old(lastScreenshotPath))
      ensures InSync() && debriefActive == old(debriefActive)
    {
      disk.MakeDirs(screenshotFolder);
      LoadScreenshots();
      LoadComments();
    }

    /** `load_screenshots`: rebuilds the list; an empty list leaves the last screenshot as it was. */
    method LoadScreenshots()
      modifies this`screenshots, this`lastScreenshotPath
      ensures Refreshed()
      ensures screenshots == [] ==> lastScreenshotPath == old(lastScreenshotPath)
    {
      screenshots := PngPaths(screenshotFolder, disk.ListDir(screenshotFolder));
      if screenshots != [] {
        var k, newest := NewestPath(screenshots, disk.ctime);
        lastScreenshotPath := Some(newest);
      }
    }

    /** `load_comments` */
    method LoadComments()
      modifies this`comments
      ensures InSync()
    {
      comments := Loaded(disk.sidecars, commentsFile);
    }

    /** `save_comments` */
    method SaveComments()
      modifies disk`sidecars
      ensures disk.sidecars == old(disk.sidecars)[commentsFile := comments]
      ensures InSync()
    {
      disk.WriteSidecar(commentsFile, comments);
    }

    /** `refresh`: re-lists the folder (the metadata is not re-read). */
    method Refresh()
      modifies this`screenshots, this`lastScreenshotPath
      ensures Refreshed()
      ensures screenshots == [] ==> lastScreenshotPath == old(lastScreenshotPath)
    {
      LoadScreenshots();
    }

    /**
     * `add_comment`: the dialog opens on the stored comment; an answer is
     * stored under the file's basename, saved to the sidecar and followed by a
     * refresh, a cancelled dialog (None) changes nothing.
     */
    method AddComment(path: string, answer: Option<string>) returns (initial: string)
      modifies this`comments, this`screenshots, this`lastScreenshotPath, disk`sidecars
      ensures initial == CommentOf(old(comments), Basename(path))
      ensures answer.None? ==>
        comments == old(comments) && disk.sidecars == old(disk.sidecars)
        && screenshots == old(screenshots) && lastScreenshotPath == old(lastScreenshotPath)
      ensures answer.Some? ==>
        comments == SetComment(old(comments), Basename(path), answer.value)
        && disk.sidecars == old(disk.sidecars)[commentsFile := comments] && InSync()
        && Refreshed() && (screenshots == [] ==> lastScreenshotPath == old(lastScreenshotPath))
    {
      var filename := Basename(path);
      initial := CommentOf(comments, filename);
      if answer.Some? {
        comments := SetComment(comments, filename, answer.value);
        SaveComments();
        Refresh();
      }
    }

    /**
     * `add_comment_to_last_screenshot` (Ctrl-B): edits the comment of the last
     * screenshot; with none recorded it only shows a notice.
     */
    method AddCommentToLastScreenshot(answer: Option<string>)
      modifies this`comments, this`screenshots, this`lastScreenshotPath, disk`sidecars
      ensures old(lastScreenshotPath).None? || old(lastScreenshotPath).value == "" ==>
        comments == old(comments) && disk.sidecars == old(disk.sidecars)
        && screenshots == old(screenshots) && lastScreenshotPath == old(lastScreenshotPath)
      ensures old(lastScreenshotPath).Some? && old(lastScreenshotPath).value != "" && answer.Some? ==>
        comments == SetComment(old(comments), Basename(old(lastScreenshotPath).value), answer.value)
        && disk.sidecars == old(disk.sidecars)[commentsFile := comments]
      ensures answer.None? ==>
        comments == old(comments) && disk.sidecars == old(disk.sidecars)
        && screenshots == old(screenshots) && lastScreenshotPath == old(lastScreenshotPath)
    {
      if lastScreenshotPath.None? || lastScreenshotPath.value == "" {
        return;
      }
      var _ := AddComment(lastScreenshotPath.value, answer);
    }

    /**
     * `delete_screenshot`: removes the file and refreshes; the metadata is not
     * touched, so the comment and a live pointer naming the file survive. A
     * failed removal changes nothing.
     */
    method DeleteScreenshot(path: string, ioOk: bool) returns (removed: bool)
      modifies disk`files, this`screenshots, this`lastScreenshotPath
      ensures removed == (ioOk && path in old(disk.files))
      ensures disk.files == if removed then Without(old(disk.files), path) else old(disk.files)
      ensures comments == old(comments) && disk.sidecars == old(disk.sidecars)
      ensures removed ==> Refreshed() && (screenshots == [] ==> lastScreenshotPath == old(lastScreenshotPath))
      ensures !removed ==> screenshots == old(screenshots) && lastScreenshotPath == old(lastScreenshotPath)
    {
      removed := disk.Remove(path, ioOk);
      if removed {
        Refresh();
      }
    }

    /**
     * `upload_screenshot`: posts the file under its basename; the result is
     * the server's verdict.
     */
    method UploadScreenshot(path: string, accepts: string -> bool) returns (ok: bool, request: Request)
      ensures request == UploadRequest(UploadUrl(apiBaseUrl, trainingId), Basename(path))
      ensures ok == accepts(path)
    {
      request := UploadRequest(UploadUrl(apiBaseUrl, trainingId), Basename(path));
      ok := accepts(path);
    }

    /**
     * `sync_screenshot` ("go live"): posts the basename as the current
     * screenshot; only when the server accepts does the metadata change (live
     * pointer set, name discussed once), get saved and the view refresh.
     */
    method SyncScreenshot(path: string, accepted: bool) returns (request: Request)
      modifies this`comments, this`screenshots, this`lastScreenshotPath, disk`sidecars
      ensures request == SyncRequest(SyncUrl(apiBaseUrl, trainingId), Basename(path))
      ensures accepted ==>
        comments == GoLive(old(comments), Basename(path))
        && disk.sidecars == old(disk.sidecars)[commentsFile := comments] && InSync()
        && Refreshed() && (screenshots == [] ==> lastScreenshotPath == old(lastScreenshotPath))
      ensures !accepted ==>
        comments == old(comments) && disk.sidecars == old(disk.sidecars)
        && screenshots == old(screenshots) && lastScreenshotPath == old(lastScreenshotPath)
    {
      var filename := Basename(path);
      request := SyncRequest(SyncUrl(apiBaseUrl, trainingId), filename);
      if accepted {
        comments := GoLive(comments, filename);
        SaveComments();
        Refresh();
      }
    }

    /**
     * `start_debrief`: refused with an empty list; otherwise the debrief is on,
     * the view refreshes and the bulk upload runs over the refreshed list,
     * ending with the viewer link.
     */
    method StartDebrief(accepts: string -> bool) returns (report: Option<UploadReport>)
      modifies this`debriefActive, this`screenshots, this`lastScreenshotPath
      ensures old(screenshots) == [] ==>
        report == None && debriefActive == old(debriefActive)
        && screenshots == old(screenshots) && lastScreenshotPath == old(lastScreenshotPath)
      ensures old(screenshots) != [] ==> debriefActive && Refreshed()
      ensures old(screenshots) != [] ==> (screenshots == [] ==> lastScreenshotPath == old(lastScreenshotPath))
      ensures old(screenshots) != [] ==>
        report == Some(UploadReport(screenshots, Progress(screenshots, accepts), Failures(screenshots, accepts), TrainingLink(trainingId)))
    {
      if |screenshots| == 0 {
        return None;
      }
      debriefActive := true;
      Refresh();
      assert Refreshed();
      var r := UploadAll(screenshots, accepts, TrainingLink(trainingId));
      report := Some(r);
    }

    /**
     * `end_debrief`: the debrief is off whatever becomes of the end signal,
     * which posts the sentinel as the current screenshot; then the view
     * refreshes.
     */
    method EndDebrief() returns (signal: Request)
      modifies this`debriefActive, this`screenshots, this`lastScreenshotPath
      ensures !debriefActive
      ensures signal == EndSignal(apiBaseUrl, trainingId)
      ensures Refreshed() && (screenshots == [] ==> lastScreenshotPath == old(lastScreenshotPath))
    {
      debriefActive := false;
      signal := SendEndSignal();
      Refresh();
    }

    /** The `requests.post` that announces the end of the debrief; the server's answer is only printed. */
    method SendEndSignal() returns (signal: Request)
      ensures signal == EndSignal(apiBaseUrl, trainingId)
    {
      signal := EndSignal(apiBaseUrl, trainingId);
    }

    /** `toggle_debrief`: ends a running debrief, otherwise tries to start one. */
    method ToggleDebrief(accepts: string -> bool) returns (report: Option<UploadReport>, signal: Option<Request>)
      modifies this`debriefActive, this`screenshots, this`lastScreenshotPath
      ensures debriefActive == if old(debriefActive) then false else old(screenshots) != []
      ensures old(debriefActive) ==> report == None && signal == Some(EndSignal(apiBaseUrl, trainingId))
      ensures !old(debriefActive) ==> signal == None && (report.Some? <==> old(screenshots) != [])
      ensures comments == old(comments)
      ensures old(debriefActive) || old(screenshots) != [] ==> Refreshed()
      ensures !old(debriefActive) && old(screenshots) != [] ==>
        report == Some(UploadReport(screenshots, Progress(screenshots, accepts), Failures(screenshots, accepts), TrainingLink(trainingId)))
      ensures !old(debriefActive) && old(screenshots) == [] ==>
        screenshots == old(screenshots) && lastScreenshotPath == old(lastScreenshotPath)
    {
      if debriefActive {
        var s := EndDebrief();
        report, signal := None, Some(s);
      } else {
        report := StartDebrief(accepts);
        signal := None;
      }
    }
  }
}
