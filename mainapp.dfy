/**
 * The older variant of the desktop app (`main.py`): a training session is
 * only a flag and a folder; each new capture opens a popup asking for an
 * optional note, and Return relocates the capture under a name that carries
 * the note. Starting a session fills the placeholders of the notes template
 * and saves the result into the training folder.
 */
module MainApp {
  import opened Wrappers
  import opened Text
  import opened PathNames
  import opened FileSystem
  import opened Gallery
  import TraineeManager

  /** `screenshot_<timestamp>[_<note>].png`, the note being the stripped entry text. */
  function NoteName(timestamp: string, entry: string): string
  {
    var note := Strip(entry);
    var baseName := "screenshot_" + timestamp;
    if note != "" then baseName + "_" + note + ".png" else baseName + ".png"
  }

  /** The note a relocated capture carries: the `_` fields of its stem after the timestamp, "" when there are none. */
  function NoteOf(filename: string): string
  {
    var parts := Split(Stem(filename), '_');
    if |parts| < 4 then "" else JoinWith(parts[3..], '_')
  }

  /** An empty or whitespace-only entry gives the plain name the other variant uses. */
  lemma NoteNameBlank(timestamp: string, entry: string)
    requires forall k :: 0 <= k < |entry| ==> IsSpace(entry[k])
    ensures NoteName(timestamp, entry) == TraineeManager.CanonicalName(timestamp)
  {
  }

  lemma NoSepLiterals()
    ensures !HasSep("screenshot_") && !HasSep("_")
  {
    assert !HasSep("screenshot_") by {
      forall i | 0 <= i < |"screenshot_"| ensures !IsSep("screenshot_"[i]) { }
    }
    assert forall i :: 0 <= i < |"_"| ==> "_"[i] == '_';
  }

  /** Whatever the note, the gallery reads back the timestamp. */
  lemma NoteNameTimestamp(date: string, time: string, entry: string)
    requires '_' !in date && '_' !in time
    requires !HasSep(date) && !HasSep(time) && !HasSep(Strip(entry))
    ensures TimestampOf(NoteName(date + "_" + time, entry)) == Some(date + "_" + time)
  {
    var note := Strip(entry);
    var ts := date + "_" + time;
    var x := "screenshot_" + date + "_" + time;
    assert "screenshot_" + ts == x;
    if note == "" {
      assert x + "" == x;
      TimestampRoundTrip(date, time, "");
    } else {
      NoSepLiterals();
      NoSepConcat("_", note);
      var rest := "_" + note;
      assert x + "_" + note + ".png" == x + rest + ".png";
      TimestampRoundTrip(date, time, rest);
    }
  }

  /**
   * A capture relocated under its note name keeps the extension this
   * variant's watcher tests (the same `.png` test as the other variant's).
   * The training folder is not the watched one, so the relocated file raises
   * no second event; the lemma says only that the name stays a `.png` name.
   */
  lemma NoteNameForwarded(timestamp: string, entry: string)
    requires !HasSep(timestamp) && !HasSep(Strip(entry))
    ensures TraineeManager.WatcherForwards(false, NoteName(timestamp, entry))
  {
    var note := Strip(entry);
    var head := "screenshot_" + timestamp;
    NoSepLiterals();
    NoSepConcat("screenshot_", timestamp);
    var x := head;
    if note != "" {
      NoSepConcat(head, "_");
      NoSepConcat(head + "_", note);
      x := head + "_" + note;
    }
    assert x[0] == head[0] == 's';
    assert NoteName(timestamp, entry) == x + ".png";
    ExtOfPng(x);
    TraineeManager.LowerPng();
  }

  /** Four `_`-separated fields, the last one free: the first three come out as they are. */
  lemma ThreeHeadFields(head: string, date: string, time: string, note: string)
    requires '_' !in head && '_' !in date && '_' !in time
    ensures Split(head + "_" + date + "_" + time + "_" + note, '_') == [head, date, time] + Split(note, '_')
  {
    var t1 := time + "_" + note;
    var t2 := date + "_" + t1;
    FieldAfterHead(time, note);
    FieldAfterHead(date, t1);
    FieldAfterHead(head, t2);
    Regroup4(head, date, time, note);
  }

  lemma Regroup4(a: string, b: string, c: string, d: string)
    ensures a + "_" + (b + "_" + (c + "_" + d)) == a + "_" + b + "_" + c + "_" + d
  {
  }

  lemma Regroup3(a: string, b: string, c: string)
    ensures a + "_" + (b + "_" + c) == a + "_" + b + "_" + c
  {
  }

  /** Three `_`-separated fields come out as they are. */
  lemma TwoHeadFields(head: string, date: string, time: string)
    requires '_' !in head && '_' !in date && '_' !in time
    ensures Split(head + "_" + date + "_" + time, '_') == [head, date, time]
  {
    SplitWhole(time, '_');
    FieldAfterHead(date, time);
    FieldAfterHead(head, date + "_" + time);
    Regroup3(head, date, time);
  }

  /** The stem of a name with a note splits into the three fixed fields followed by the note's own fields. */
  lemma NoteFields(date: string, time: string, note: string)
    requires '_' !in date && '_' !in time
    ensures Split("screenshot_" + date + "_" + time + "_" + note, '_') == ["screenshot", date, time] + Split(note, '_')
  {
    ScreenshotPrefix();
    ThreeHeadFields("screenshot", date, time, note);
  }

  /** The note is recovered from the relocated name: NoteOf undoes NoteName. */
  lemma NoteRoundTrip(date: string, time: string, entry: string)
    requires '_' !in date && '_' !in time
    requires !HasSep(date) && !HasSep(time) && !HasSep(Strip(entry))
    ensures NoteOf(NoteName(date + "_" + time, entry)) == Strip(entry)
  {
    var note := Strip(entry);
    var x := "screenshot_" + date + "_" + time;
    assert "screenshot_" + (date + "_" + time) == x;
    NoSepLiterals();
    NoSepConcat("screenshot_", date);
    NoSepConcat("screenshot_" + date, "_");
    NoSepConcat("screenshot_" + date + "_", time);
    if note == "" {
      assert NoteName(date + "_" + time, entry) == x + ".png";
      BlankNoteOf(date, time);
    } else {
      assert NoteName(date + "_" + time, entry) == x + "_" + note + ".png";
      NoSepConcat(x, "_");
      NoSepConcat(x + "_", note);
      NonBlankNoteOf(date, time, note);
    }
  }

  lemma BlankNoteOf(date: string, time: string)
    requires '_' !in date && '_' !in time
    requires !HasSep("screenshot_" + date + "_" + time)
    ensures NoteOf("screenshot_" + date + "_" + time + ".png") == ""
  {
    var x := "screenshot_" + date + "_" + time;
    ExtOfPng(x);
    HeadFieldsExact(date, time);
  }

  lemma NonBlankNoteOf(date: string, time: string, note: string)
    requires '_' !in date && '_' !in time
    requires !HasSep("screenshot_" + date + "_" + time + "_" + note)
    ensures NoteOf("screenshot_" + date + "_" + time + "_" + note + ".png") == note
  {
    var y := "screenshot_" + date + "_" + time + "_" + note;
    ExtOfPng(y);
    NoteFields(date, time, note);
    var parts := Split(y, '_');
    assert parts[3..] == Split(note, '_');
    SplitJoin(note, '_');
  }

  /** Without a note the stem has exactly the three fixed fields. */
  lemma HeadFieldsExact(date: string, time: string)
    requires '_' !in date && '_' !in time
    ensures Split("screenshot_" + date + "_" + time, '_') == ["screenshot", date, time]
  {
    ScreenshotPrefix();
    TwoHeadFields("screenshot", date, time);
  }

  /** One `if "<pat>" in text: text = text.replace(...)` step of the template loop. */
  function Fill(text: string, placeholder: string, value: string): string
    requires |placeholder| > 0
  {
    if Contains(text, placeholder) then Replace(text, placeholder, value) else text
  }

  /** A template paragraph after its `{Name}`, `{Training}` and `{Date}` steps, in that order. */
  function FillParagraph(text: string, name: string, training: string, date: string): string
  {
    Fill(Fill(Fill(text, "{Name}", name), "{Training}", training), "{Date}", date)
  }

  /** The `in` guards change nothing: the paragraph is the plain chain of three replacements. */
  lemma FillIsReplace(text: string, name: string, training: string, date: string)
    ensures FillParagraph(text, name, training, date)
      == Replace(Replace(Replace(text, "{Name}", name), "{Training}", training), "{Date}", date)
  {
    var t1 := Replace(text, "{Name}", name);
    if !Contains(text, "{Name}") {
      ReplaceAbsent(text, "{Name}", name);
    }
    var t2 := Replace(t1, "{Training}", training);
    if !Contains(t1, "{Training}") {
      ReplaceAbsent(t1, "{Training}", training);
    }
    if !Contains(t2, "{Date}") {
      ReplaceAbsent(t2, "{Date}", date);
    }
  }

  /** Paragraphs without placeholders are left as they are. */
  lemma FillWithoutPlaceholders(text: string, name: string, training: string, date: string)
    requires !Contains(text, "{Name}") && !Contains(text, "{Training}") && !Contains(text, "{Date}")
    ensures FillParagraph(text, name, training, date) == text
  {
  }

  /** A text without `{` holds no placeholder. */
  lemma NoBraceNoPlaceholder(s: string, placeholder: string)
    requires '{' !in s && |placeholder| > 0 && placeholder[0] == '{'
    ensures !Contains(s, placeholder)
  {
    forall i | 0 <= i <= |s| - |placeholder| ensures !OccursAt(s, placeholder, i) {
      assert s[i..i + |placeholder|][0] == s[i];
    }
    ContainsIff(s, placeholder);
  }

  /**
   * A paragraph with one `{Name}` and no other brace gets the trainee's folder
   * name in its place and nothing else changes.
   */
  lemma FillName(a: string, b: string, name: string, training: string, date: string)
    requires '{' !in a && '{' !in b && '{' !in name
    ensures FillParagraph(a + "{Name}" + b, name, training, date) == a + name + b
  {
    var pat := "{Name}";
    var s := a + pat + b;
    forall i | 0 <= i < |a| ensures !OccursAt(s, pat, i) {
      assert i + |pat| <= |s| ==> s[i..i + |pat|][0] == a[i];
    }
    ContainsIff(a + pat + b, pat);
    assert (a + pat + b)[|a|..|a| + |pat|] == pat;
    assert OccursAt(a + pat + b, pat, |a|);
    ReplaceFirst(a, pat, b, name);
    NoBraceNoPlaceholder(b, pat);
    ReplaceAbsent(b, pat, name);
    var r := a + name + b;
    assert '{' !in r;
    NoBraceNoPlaceholder(r, "{Training}");
    NoBraceNoPlaceholder(r, "{Date}");
  }

  /** The template loop: every paragraph is filled in place, in document order. */
  method FillTemplate(paragraphs: array<string>, name: string, training: string, date: string)
    modifies paragraphs
    ensures forall i :: 0 <= i < paragraphs.Length ==> paragraphs[i] == FillParagraph(old(paragraphs[i]), name, training, date)
  {
    for i := 0 to paragraphs.Length
      invariant forall j :: 0 <= j < i ==> paragraphs[j] == FillParagraph(old(paragraphs[j]), name, training, date)
      invariant forall j :: i <= j < paragraphs.Length ==> paragraphs[j] == old(paragraphs[j])
    {
      var text := paragraphs[i];
      if Contains(text, "{Name}") {
        text := Replace(text, "{Name}", name);
      }
      if Contains(text, "{Training}") {
        text := Replace(text, "{Training}", training);
      }
      if Contains(text, "{Date}") {
        text := Replace(text, "{Date}", date);
      }
      paragraphs[i] := text;
    }
  }

  /** `<training>_training_notes.docx` */
  function NotesFileName(training: string): string
  {
    training + "_training_notes.docx"
  }

  class TraineeManagerApp {
    const traineeFolder: string
    /** The watched capture folder (`DEFAULT_SCREENSHOT_FOLDER`). */
    const screenshotFolder: string
    const disk: Disk
    var trainingModeActive: bool
    var currentTrainingFolder: Option<string>
    /** Captures whose note popup is open, oldest first. */
    var popups: seq<string>

    /** Start-up once the trainee root folder is known: no session, no popup, the capture folder exists. */
    constructor (traineeFolder: string, screenshotFolder: string, disk: Disk)
      modifies disk`dirs
      ensures this.traineeFolder == traineeFolder && this.screenshotFolder == screenshotFolder && this.disk == disk
      ensures !trainingModeActive && currentTrainingFolder == None && popups == []
      ensures disk.dirs == old(disk.dirs) + {screenshotFolder}
    {
      this.traineeFolder, this.screenshotFolder, this.disk := traineeFolder, screenshotFolder, disk;
      trainingModeActive, currentTrainingFolder, popups := false, None, [];
      new;
      if screenshotFolder !in disk.dirs {
        disk.MakeDirs(screenshotFolder);
      }
    }

    /**
     * `add_trainee`: refused for a cancelled or empty name or id and for an
     * existing `<name>-<id>` entry; a failing `makedirs` is only reported.
     * Returns the created folder.
     */
    method AddTrainee(name: Option<string>, id: Option<string>, mkdirOk: bool) returns (created: Option<string>)
      modifies disk`dirs
      ensures name.None? || name.value == "" || id.None? || id.value == "" ==>
        created == None && disk.dirs == old(disk.dirs)
      ensures name.Some? && name.value != "" && id.Some? && id.value != "" ==>
        var path := Join(traineeFolder, TraineeManager.TraineeFolderName(name.value, id.value));
        (created.Some? <==> !old(disk.Exists(path)) && mkdirOk)
        && (created.Some? ==> created.value == path && disk.dirs == old(disk.dirs) + {path})
        && (created.None? ==> disk.dirs == old(disk.dirs))
    {
      if name.None? || name.value == "" || id.None? || id.value == "" {
        return None;
      }
      var path := Join(traineeFolder, TraineeManager.TraineeFolderName(name.value, id.value));
      if disk.Exists(path) || !mkdirOk {
        return None;
      }
      disk.MakeDirs(path);
      created := Some(path);
    }

    /**
     * `start_training_mode`: refused without a selected trainee or with a
     * cancelled or empty training name. Otherwise the folder
     * `<root>/<trainee>/<training>` is recorded first; if it cannot be created
     * the error ends the call there. On success the mode is on and, when the
     * template exists, its paragraphs are filled and saved as the notes file
     * of the training folder, whose path is returned.
     */
    method StartTrainingMode(selected: string, trainingName: Option<string>, mkdirOk: bool,
                             templateExists: bool, paragraphs: array<string>, date: string)
      returns (notes: Option<string>)
      modifies this`currentTrainingFolder, this`trainingModeActive, disk`dirs, disk`files, paragraphs
      ensures selected == "" || trainingName.None? || trainingName.value == "" ==>
        currentTrainingFolder == old(currentTrainingFolder) && trainingModeActive == old(trainingModeActive)
        && disk.dirs == old(disk.dirs) && disk.files == old(disk.files) && notes == None
        && paragraphs[..] == old(paragraphs[..])
      ensures selected != "" && trainingName.Some? && trainingName.value != "" ==>
        currentTrainingFolder == Some(Join(Join(traineeFolder, selected), trainingName.value))
      ensures selected != "" && trainingName.Some? && trainingName.value != "" && !mkdirOk ==>
        trainingModeActive == old(trainingModeActive) && disk.dirs == old(disk.dirs)
        && disk.files == old(disk.files) && notes == None && paragraphs[..] == old(paragraphs[..])
      ensures selected != "" && trainingName.Some? && trainingName.value != "" && mkdirOk ==>
        trainingModeActive && disk.dirs == old(disk.dirs) + {currentTrainingFolder.value}
      ensures selected != "" && trainingName.Some? && trainingName.value != "" && mkdirOk && !templateExists ==>
        notes == None && disk.files == old(disk.files) && paragraphs[..] == old(paragraphs[..])
      ensures selected != "" && trainingName.Some? && trainingName.value != "" && mkdirOk && templateExists ==>
        notes == Some(Join(currentTrainingFolder.value, NotesFileName(trainingName.value)))
        && disk.files == Without(old(disk.files), notes.value) + [notes.value]
        && forall i :: 0 <= i < paragraphs.Length ==>
             paragraphs[i] == FillParagraph(old(paragraphs[i]), selected, trainingName.value, date)
    {
      if selected == "" || trainingName.None? || trainingName.value == "" {
        return None;
      }
      var folder := Join(Join(traineeFolder, selected), trainingName.value);
      currentTrainingFolder := Some(folder);
      if !mkdirOk {
        return None;
      }
      disk.MakeDirs(folder);
      trainingModeActive := true;
      notes := CreateTrainingDoc(selected, trainingName.value, templateExists, paragraphs, date);
    }

    /**
     * `create_and_open_training_doc`: nothing without the template; otherwise
     * the filled document is written into the training folder.
     */
    method CreateTrainingDoc(traineeFolderName: string, training: string, templateExists: bool,
                             paragraphs: array<string>, date: string)
      returns (notes: Option<string>)
      requires currentTrainingFolder.Some?
      modifies disk`files, paragraphs
      ensures !templateExists ==> notes == None && disk.files == old(disk.files) && paragraphs[..] == old(paragraphs[..])
      ensures templateExists ==>
        notes == Some(Join(currentTrainingFolder.value, NotesFileName(training)))
        && disk.files == Without(old(disk.files), notes.value) + [notes.value]
        && forall i :: 0 <= i < paragraphs.Length ==>
             paragraphs[i] == FillParagraph(old(paragraphs[i]), traineeFolderName, training, date)
    {
      if !templateExists {
        return None;
      }
      FillTemplate(paragraphs, traineeFolderName, training, date);
      var docPath := Join(currentTrainingFolder.value, NotesFileName(training));
      disk.WriteFile(docPath);
      notes := Some(docPath);
    }

    /** `stop_training_mode`: the mode is off and the folder forgotten; open popups stay. */
    method StopTrainingMode()
      modifies this`trainingModeActive, this`currentTrainingFolder
      ensures !trainingModeActive && currentTrainingFolder == None
    {
      trainingModeActive := false;
      currentTrainingFolder := None;
    }

    /**
     * `on_new_screenshot_detected` with `handle_screenshot_popup`: ignored
     * outside a session, without a training folder, or when the file is
     * already gone; otherwise a note popup opens for the capture.
     */
    method OnNewScreenshotDetected(path: string)
      modifies this`popups
      ensures (!trainingModeActive || currentTrainingFolder.None? || currentTrainingFolder.value == ""
               || !disk.Exists(path)) ==> popups == old(popups)
      ensures (trainingModeActive && currentTrainingFolder.Some? && currentTrainingFolder.value != ""
               && disk.Exists(path)) ==> popups == old(popups) + [path]
    {
      if !trainingModeActive || currentTrainingFolder.None? || currentTrainingFolder.value == "" {
        return;
      }
      if !disk.Exists(path) {
        return;
      }
      popups := popups + [path];
    }

    /**
     * `on_enter` of popup `k`: the capture moves to
     * `<training folder>/screenshots/<NoteName>` and the popup closes, even
     * when the move fails. With the session stopped meanwhile the path join
     * fails: nothing moves and the popup stays open.
     */
    method OnEnter(k: nat, entry: string, timestamp: string, ioOk: bool) returns (moved: bool)
      requires k < |popups|
      modifies this`popups, disk`dirs, disk`files
      ensures currentTrainingFolder.None? ==>
        !moved && popups == old(popups) && disk.dirs == old(disk.dirs) && disk.files == old(disk.files)
      ensures currentTrainingFolder.Some? ==>
        var sub := Join(currentTrainingFolder.value, "screenshots");
        popups == old(popups[..k] + popups[k + 1..])
        && disk.dirs == old(disk.dirs) + {sub}
        && moved == (ioOk && old(popups[k]) in old(disk.files))
        && disk.files == if moved then Moved(old(disk.files), old(popups[k]), Join(sub, NoteName(timestamp, entry)))
                         else old(disk.files)
    {
      if currentTrainingFolder.None? {
        return false;
      }
      var newFilename := NoteName(timestamp, entry);
      var subfolder := Join(currentTrainingFolder.value, "screenshots");
      disk.MakeDirs(subfolder);
      moved := disk.Move(popups[k], Join(subfolder, newFilename), ioOk);
      popups := popups[..k] + popups[k + 1..];
    }
  }
}
