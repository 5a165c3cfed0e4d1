/** The bookkeeping of the application window: the list of base images to
    process, the selected overlay, and the batch run of `add_overlay` over the
    list. Widgets are abstracted to the state they show: the list of file
    labels becomes the sequence of their texts, the status label a `Status`,
    and what the batch prints to the console a sequence of lines. */
module GuiApp {
  import opened ImageProcessor
  import opened OsPath

  /** Text of the status label: "Ready", or "Done! {total} images saved to {outputDir}". */
  datatype Status = Ready | Done(total: nat, outputDir: string)

  /** How `start_processing` ended: one of its two error boxes, a cancelled
      folder dialog, or the success box announcing `total` images. */
  datatype Report = NoOverlay | NoImages | Cancelled | Finished(total: nat)

  /** The placement settings read from the widgets once per batch. */
  datatype Settings = Settings(position: string, scale: real, padding: real)

  /** The file system and image library as seen by one batch: what decoding
      the file at a path yields, and the error, if any, that the resize,
      composite or save calls raise for it. */
  datatype Env = Env(decode: string -> Result<Size>, libraryError: string -> Option<string>)

  /** One call of `add_overlay`: the base path, the output path and the outcome. */
  datatype Attempt = Attempt(path: string, outputPath: string, outcome: Outcome)

  /** The paths of `paths` that `_add_files_to_list` appends, in order:
      those not in the list as it was before the call. Two equal new paths
      in one call are both kept. */
  function NewPaths(paths: seq<string>, snapshot: seq<string>): seq<string> {
    if paths == [] then []
    else
      var last := paths[|paths| - 1];
      NewPaths(paths[..|paths| - 1], snapshot) + (if last in snapshot then [] else [last])
  }

  /** A path occurs among the appended ones exactly as often as in the input
      when it was not in the list before, and never otherwise. */
  lemma {:induction false} NewPathsCount(paths: seq<string>, snapshot: seq<string>, x: string)
    ensures multiset(NewPaths(paths, snapshot))[x] == if x in snapshot then 0 else multiset(paths)[x]
  {
    if paths != [] {
      var init, last := paths[..|paths| - 1], paths[|paths| - 1];
      assert paths == init + [last];
      NewPathsCount(init, snapshot, x);
    }
  }

  /** When none of the given paths is in the list, all of them are appended,
      in the order given, duplicates included. */
  lemma {:induction false} NewPathsAllNew(paths: seq<string>, snapshot: seq<string>)
    requires forall i :: 0 <= i < |paths| ==> paths[i] !in snapshot
    ensures NewPaths(paths, snapshot) == paths
  {
    if paths != [] {
      var init := paths[..|paths| - 1];
      NewPathsAllNew(init, snapshot);
      assert paths == init + [paths[|paths| - 1]];
    }
  }

  /** One batch item: the output path built from the base name, and the
      outcome of `add_overlay` for it, which depends on that item alone. */
  function Process(path: string, outputDir: string, overlay: Size, settings: Settings, env: Env): (a: Attempt)
    ensures a.path == path
    ensures a.outputPath == OutputPath(outputDir, path)
    ensures a.outcome.Success? <==> env.decode(path).Ok? && overlay.width != 0 && env.libraryError(path).None?
  {
    Attempt(path, OutputPath(outputDir, path),
            AddOverlay(env.decode(path), overlay, settings.position, settings.scale, settings.padding,
                       env.libraryError(path)))
  }

  /** The line printed for one failed attempt. */
  function FailureLine(a: Attempt): string
    requires a.outcome.Failure?
  {
    "Failed to process " + a.path + ": " + a.outcome.msg
  }

  /** The lines a batch prints: one per failed attempt, in order. */
  function FailureLines(attempts: seq<Attempt>): seq<string> {
    if attempts == [] then []
    else
      var last := attempts[|attempts| - 1];
      FailureLines(attempts[..|attempts| - 1]) + (if last.outcome.Failure? then [FailureLine(last)] else [])
  }

  /** Number of failed attempts. */
  function Failures(attempts: seq<Attempt>): nat {
    if attempts == [] then 0
    else Failures(attempts[..|attempts| - 1]) + (if attempts[|attempts| - 1].outcome.Failure? then 1 else 0)
  }

  /** The console receives one line per failed item and nothing for the others;
      when every item succeeds nothing is printed. */
  lemma {:induction false} FailureLinesCount(attempts: seq<Attempt>)
    ensures |FailureLines(attempts)| == Failures(attempts) <= |attempts|
    ensures (forall i :: 0 <= i < |attempts| ==> attempts[i].outcome.Success?) ==> FailureLines(attempts) == []
  {
    if attempts != [] {
      FailureLinesCount(attempts[..|attempts| - 1]);
    }
  }

  /** The `for` loop of `start_processing`: for each queued path, in order,
      derive the output path, call `add_overlay`, and print a line if it
      failed, then go on with the next path. Returns the calls made and the
      printed lines. */
  method RunBatch(paths: seq<string>, outputDir: string, overlay: Size, settings: Settings, env: Env)
    returns (attempts: seq<Attempt>, printed: seq<string>)
    ensures |attempts| == |paths|
    ensures forall i :: 0 <= i < |paths| ==> attempts[i] == Process(paths[i], outputDir, overlay, settings, env)
    ensures printed == FailureLines(attempts)
  {
    attempts, printed := [], [];
    for i := 0 to |paths|
      invariant |attempts| == i
      invariant forall j :: 0 <= j < i ==> attempts[j] == Process(paths[j], outputDir, overlay, settings, env)
      invariant printed == FailureLines(attempts)
    {
      var path := paths[i];
      var outputPath := OutputPath(outputDir, path);
      var outcome := AddOverlay(env.decode(path), overlay, settings.position, settings.scale,
                                settings.padding, env.libraryError(path));
      var attempt := Attempt(path, outputPath, outcome);
      assert attempt == Process(path, outputDir, overlay, settings, env);
      ghost var done := attempts;
      attempts := attempts + [attempt];
      assert attempts[..|attempts| - 1] == done;
      forall j | 0 <= j < i + 1
        ensures attempts[j] == Process(paths[j], outputDir, overlay, settings, env)
      {
        if j < i { assert attempts[j] == done[j]; } else { assert attempts[j] == attempt; }
      }
      if outcome.Failure? {
        printed := printed + [FailureLine(attempt)];
      }
    }
  }

  class App {
    /** Texts of the file labels, i.e. the queued base image paths. */
    var files: seq<string>
    /** Size of the selected overlay image; None until one is opened. */
    var overlay: Option<Size>
    var overlayPath: string
    var status: Status
    /** Lines printed to standard output. */
    var console: seq<string>

    constructor ()
      ensures files == [] && overlay == None && overlayPath == "" && status == Ready && console == []
    {
      files := [];
      overlay := None;
      overlayPath := "";
      status := Ready;
      console := [];
    }

    /** `select_overlay`: `filepath` is what the file dialog returned ("" when
        cancelled) and `decoded` what opening it yields. A file that cannot be
        opened leaves the previous overlay in place and returns the error box text. */
    method SelectOverlay(filepath: string, decoded: Result<Size>) returns (error: Option<string>)
      modifies this`overlay, this`overlayPath
      ensures filepath != "" && decoded.Ok? ==> overlay == Some(decoded.value) && overlayPath == filepath && error == None
      ensures filepath != "" && decoded.Err? ==> error == Some("Could not open overlay image:\n" + decoded.msg)
      ensures filepath == "" ==> error == None
      ensures filepath == "" || decoded.Err? ==> overlay == old(overlay) && overlayPath == old(overlayPath)
    {
      error := None;
      if filepath != "" {
        match decoded
        case Ok(size) =>
          overlay := Some(size);
          overlayPath := filepath;
        case Err(msg) =>
          error := Some("Could not open overlay image:\n" + msg);
      }
    }

    /** `_add_files_to_list`: appends, in order, each path not already listed
        before the call; the existing entries stay as they were. */
    method AddFiles(paths: seq<string>)
      modifies this`files
      ensures files == old(files) + NewPaths(paths, old(files))
    {
      var current := files;
      for i := 0 to |paths|
        invariant files == current + NewPaths(paths[..i], current)
      {
        assert paths[..i + 1][..i] == paths[..i];
        if paths[i] !in current {
          files := files + [paths[i]];
        }
      }
      assert paths[..|paths|] == paths;
    }

    /** `clear_list`: empties the list and resets the status label. */
    method ClearList()
      modifies this`files, this`status
      ensures files == [] && status == Ready
    {
      files := [];
      status := Ready;
    }

    /** `start_processing`. `outputDir` is what the folder dialog returned
        ("" when cancelled). Without an overlay, with an empty list or without
        a folder nothing happens; otherwise every queued path goes through
        `add_overlay` once, in order, each failure is printed and the batch
        goes on, and the status then reports all queued images as saved. */
    method StartProcessing(outputDir: string, settings: Settings, env: Env) returns (report: Report, attempts: seq<Attempt>)
      modifies this`status, this`console
      ensures report.Finished? <==> overlay.Some? && files != [] && outputDir != ""
      ensures overlay.None? ==> report == NoOverlay
      ensures overlay.Some? && files == [] ==> report == NoImages
      ensures overlay.Some? && files != [] && outputDir == "" ==> report == Cancelled
      ensures !report.Finished? ==> attempts == [] && status == old(status) && console == old(console)
      ensures report.Finished? ==>
        && overlay.Some? && files != [] && outputDir != ""
        && report.total == |files|
        && |attempts| == |files|
        && (forall i :: 0 <= i < |files| ==> attempts[i] == Process(files[i], outputDir, overlay.value, settings, env))
        && console == old(console) + FailureLines(attempts)
        && status == Done(|files|, outputDir)
    {
      attempts := [];
      if overlay.None? {
        return NoOverlay, attempts;
      }
      var imagePaths := files;
      if imagePaths == [] {
        return NoImages, attempts;
      }
      if outputDir == "" {
        return Cancelled, attempts;
      }
      var total := |imagePaths|;
      var printed;
      attempts, printed := RunBatch(imagePaths, outputDir, overlay.value, settings, env);
      console := console + printed;
      status := Done(total, outputDir);
      report := Finished(total);
    }
  }
}
