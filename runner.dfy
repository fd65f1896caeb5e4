/** The editor plugin: on save, find the nearest enclosing folder that has a
    `test` directory, run the test runner there in one background worker at a
    time, poll it until it finishes, and write the result to an output panel
    and the status bar. */
module MochaRunner {
  import opened Text
  import opened Tap

  datatype Option<T> = None | Some(value: T)

  /** A path as its components: "/a/b" is ["", "a", "b"]. */
  type Path = seq<string>

  /** What the folder search returns: the falsy '' when the view has no file
      name, a folder, or (when nothing is found) None. */
  datatype Folder = NoFileName | Found(path: Path) | NotFound

  /** What the test process leaves behind: the value `wait()` returned, which
      may be None, and the text `getstatusoutput` returns, that is, the
      process's stdout and stderr together after shell quoting. */
  datatype ProcessOutput = ProcessOutput(status: Option<int>, output: string)

  /** The directory of a file: its path without the last component. */
  function Dir(file: Path): (dir: Path)
    requires file != []
  {
    file[..|file| - 1]
  }

  /** `p` has a child directory `name` among the existing directories. */
  predicate HasChild(existing: set<Path>, p: Path, name: string)
  {
    p + [name] in existing
  }

  /** The upward walk over `dirs`: the longest non-empty prefix of `dirs` that
      has a child directory `name`. */
  function Nearest(dirs: Path, name: string, existing: set<Path>): (r: Option<Path>)
    ensures r.Some? ==> 1 <= |r.value| <= |dirs| && r.value == dirs[..|r.value|]
    ensures r.Some? ==> HasChild(existing, r.value, name)
    ensures r.Some? ==> forall k :: |r.value| < k <= |dirs| ==> !HasChild(existing, dirs[..k], name)
    ensures r.None? <==> forall k :: 1 <= k <= |dirs| ==> !HasChild(existing, dirs[..k], name)
    decreases |dirs|
  {
    if dirs == [] then None
    else if HasChild(existing, dirs, name) then
      assert dirs[..|dirs|] == dirs;
      Some(dirs)
    else
      var parent := dirs[..|dirs| - 1];
      assert forall k :: 1 <= k <= |parent| ==> parent[..k] == dirs[..k];
      assert dirs[..|dirs|] == dirs;
      Nearest(parent, name, existing)
  }

  /** The value `find_folder` returns for a file. */
  function Locate(file: Path, name: string, existing: set<Path>): (r: Folder)
    ensures r == NoFileName <==> file == []
    ensures r.Found? ==> Nearest(Dir(file), name, existing) == Some(r.path)
    ensures r == NotFound <==> file != [] && Nearest(Dir(file), name, existing).None?
  {
    if file == [] then NoFileName
    else match Nearest(Dir(file), name, existing)
      case Some(p) => Found(p)
      case None => NotFound
  }

  /** `getstatusoutput`: a status of None counts as 0; the (already quoted)
      output text is returned with it. */
  function GetStatusOutput(p: ProcessOutput): (r: (int, string))
    ensures r.0 == 0 <==> p.status == None || p.status == Some(0)
    ensures p.status.Some? ==> r.0 == p.status.value
    ensures r.1 == p.output
  {
    (if p.status.None? then 0 else p.status.value, p.output)
  }

  /** The first line of the report, without its "\n". */
  function Headline(success: bool, time: string): (r: string)
    ensures success <==> StartsWith(r, "SUCCESS - ")
    ensures !success <==> StartsWith(r, "FAILED - ")
    ensures |time| <= |r| && r[|r| - |time|..] == time
    ensures |r| == (if success then |"SUCCESS - "| else |"FAILED - "|) + |time|
  {
    var word := if success then "SUCCESS - " else "FAILED - ";
    var r := word + time;
    assert r[..|word|] == word && r[0] == word[0];
    r
  }

  /** The panel text: the headline, then each failing line, each line ended by "\n". */
  function PanelText(success: bool, time: string, notOk: seq<string>): (panel: string)
    ensures StartsWith(panel, Headline(success, time) + "\n")
    ensures panel[|Headline(success, time)| + 1..] == JoinLines(notOk)
  {
    JoinLines([Headline(success, time)] + notOk)
  }

  /** Read back line by line, the panel is the headline followed by the failing lines. */
  lemma PanelLines(success: bool, time: string, notOk: seq<string>)
    requires NoNewline(time)
    requires forall l :: l in notOk ==> NoNewline(l)
    ensures SplitLines(PanelText(success, time, notOk)) == [Headline(success, time)] + notOk
  {
    var h := Headline(success, time);
    assert NoNewline(if success then "SUCCESS - " else "FAILED - ");
    assert NoNewline(h);
    SplitJoin([h] + notOk);
  }

  /** The failing lines of a run never break the panel's line structure: for
      any quoted output text, the panel reads back as the headline followed by
      exactly the output's "not ok" lines. */
  lemma ReportedFailures(success: bool, time: string, output: string)
    requires NoNewline(time)
    ensures var notOk := Select(SplitLines(output), NotOkLine);
      SplitLines(PanelText(success, time, notOk)) == [Headline(success, time)] + notOk
  {
    var lines := SplitLines(output);
    SplitLinesNoNewline(output);
    SelectMembers(lines, NotOkLine);
    PanelLines(success, time, Select(lines, NotOkLine));
  }

  /** The editor's view: the sink for the plugin's effects. */
  class View {
    /** Text under the status key 'Mocha'. */
    var status: string
    /** Contents of the 'run_mocha' output panel. */
    var panel: string
    /** Whether the output panel is shown. */
    var panelShown: bool
    /** Number of polls scheduled with `set_timeout`. */
    var polls: nat

    constructor ()
      ensures status == "" && panel == "" && !panelShown && polls == 0
    {
      status, panel, panelShown, polls := "", "", false, 0;
    }
  }

  /** The view after `output_result` has shown `result`. */
  ghost predicate Reported(view: View, result: MochaResult, time: string)
    reads view, result
  {
    view.panel == PanelText(result.success, time, result.linesNotOk)
    && view.status == Headline(result.success, time) + "\n"
    && view.panelShown == !result.success
  }

  /** The background worker that runs the test command in `folder`. */
  class RunMochaWorker {
    const folder: Path
    var result: MochaResult?

    constructor (folder: Path)
      ensures this.folder == folder && result == null
    {
      this.folder := folder;
      result := null;
    }

    /** The thread body: a run that raised leaves no result (`outcome` None). */
    method Run(outcome: Option<ProcessOutput>)
      modifies this
      ensures outcome.None? ==> result == null
      ensures outcome.Some? ==> result != null && fresh(result) && result.Valid()
      ensures outcome.Some? ==> (result.success <==> outcome.value.status in {None, Some(0)})
      ensures outcome.Some? ==> result.lines == SplitLines(outcome.value.output)
    {
      match outcome
      case None =>
        result := null;
      case Some(p) =>
        result := RunMocha(p);
    }

    /** Runs the test command: success is an exit status of 0, the lines are
        the (quoted) output text split into lines. */
    method RunMocha(p: ProcessOutput) returns (r: MochaResult)
      ensures fresh(r) && r.Valid()
      ensures r.success <==> p.status in {None, Some(0)}
      ensures r.lines == SplitLines(p.output)
    {
      var result := GetStatusOutput(p);
      var success := result.0 == 0;
      var lines := SplitLines(result.1);
      r := new MochaResult(success, lines);
    }
  }

  /** The save listener. It holds at most one worker at a time. */
  class RunMochaCommand {
    var worker: RunMochaWorker?
    /** Number of workers started so far. */
    ghost var started: nat

    constructor ()
      ensures worker == null && started == 0
    {
      worker := null;
      started := 0;
    }

    /** On save: look for the `test` folder above the saved file and, if there
        is one, run the tests there. */
    method OnPostSave(view: View, file: Path, existing: set<Path>, alive: bool, result: MochaResult?, time: string)
      modifies this, view
      ensures !Locate(file, "test", existing).Found? ==> unchanged(this) && unchanged(view)
      ensures Locate(file, "test", existing).Found? && old(worker) != null ==>
        worker == old(worker) && started == old(started) && unchanged(view)
      ensures Locate(file, "test", existing).Found? && old(worker) == null ==> started == old(started) + 1
      ensures Locate(file, "test", existing).Found? && old(worker) == null && alive ==>
        worker != null && fresh(worker) && worker.folder == Locate(file, "test", existing).path
        && worker.result == null
        && view.status == "Testing ..." && view.polls == old(view.polls) + 1
        && view.panel == old(view.panel) && view.panelShown == old(view.panelShown)
      ensures Locate(file, "test", existing).Found? && old(worker) == null && !alive ==>
        worker == null && view.polls == old(view.polls)
      ensures Locate(file, "test", existing).Found? && old(worker) == null && !alive && result == null ==>
        view.status == old(view.status) && view.panel == old(view.panel) && view.panelShown == old(view.panelShown)
      ensures Locate(file, "test", existing).Found? && old(worker) == null && !alive && result != null ==>
        Reported(view, result, time)
    {
      var folder := FindFolder(file, "test", existing);
      if folder.Found? {
        RunMocha(view, folder.path, alive, result, time);
      }
    }

    /** Walks up from the saved file's directory, one component per step, to
        the first folder that has a child directory `name`. */
    method FindFolder(file: Path, name: string, existing: set<Path>) returns (r: Folder)
      ensures r == Locate(file, name, existing)
    {
      if file == [] {
        return NoFileName;
      }
      var dirs := Dir(file) + [name];
      var f := dirs[|dirs| - 1];
      dirs := dirs[..|dirs| - 1];
      assert dirs == Dir(file);
      while dirs != []
        invariant Nearest(dirs, name, existing) == Nearest(Dir(file), name, existing)
        decreases |dirs|
      {
        if dirs + [f] in existing {
          return Found(dirs);
        }
        dirs := dirs[..|dirs| - 1];
      }
      return NotFound;
    }

    /** Starts a worker on `folder` unless one is already in flight, then polls it once. */
    method RunMocha(view: View, folder: Path, alive: bool, result: MochaResult?, time: string)
      modifies this, view
      ensures old(worker) != null ==> worker == old(worker) && started == old(started) && unchanged(view)
      ensures old(worker) == null ==> started == old(started) + 1
      ensures old(worker) == null && alive ==>
        worker != null && fresh(worker) && worker.folder == folder && worker.result == null
        && view.status == "Testing ..." && view.polls == old(view.polls) + 1
        && view.panel == old(view.panel) && view.panelShown == old(view.panelShown)
      ensures old(worker) == null && !alive ==> worker == null && view.polls == old(view.polls)
      ensures old(worker) == null && !alive && result == null ==>
        view.status == old(view.status) && view.panel == old(view.panel) && view.panelShown == old(view.panelShown)
      ensures old(worker) == null && !alive && result != null ==> Reported(view, result, time)
    {
      if worker != null {
        return;
      }
      worker := new RunMochaWorker(folder);
      started := started + 1;
      CheckForCompletion(view, alive, result, time);
    }

    /** One poll of the worker: while it is alive, only the status text changes
        and a new poll is scheduled; once it has finished, its result (if any)
        is shown and the worker slot is cleared. */
    method CheckForCompletion(view: View, alive: bool, result: MochaResult?, time: string)
      requires worker != null
      modifies this, view
      ensures started == old(started)
      ensures alive ==>
        worker == old(worker)
        && view.status == "Testing ..." && view.polls == old(view.polls) + 1
        && view.panel == old(view.panel) && view.panelShown == old(view.panelShown)
      ensures !alive ==> worker == null && view.polls == old(view.polls)
      ensures !alive && result == null ==>
        view.status == old(view.status) && view.panel == old(view.panel) && view.panelShown == old(view.panelShown)
      ensures !alive && result != null ==> Reported(view, result, time)
    {
      if alive {
        view.status := "Testing ...";
        view.polls := view.polls + 1;
        return;
      }
      if result != null {
        OutputResult(view, result, time);
      }
      worker := null;
    }

    /** Writes the report to the panel and the status bar, and shows the panel
        only for a failed run. */
    method OutputResult(view: View, result: MochaResult, time: string)
      modifies view
      ensures Reported(view, result, time)
      ensures StartsWith(view.panel, view.status)
      ensures view.polls == old(view.polls)
    {
      view.panel := "";
      var message := Headline(result.success, time) + "\n";
      view.panel := view.panel + message;
      view.status := message;
      var notOk := result.linesNotOk;
      for i := 0 to |notOk|
        invariant view.panel == message + JoinLines(notOk[..i])
        invariant view.status == message && view.polls == old(view.polls)
      {
        JoinLinesSnoc(notOk[..i], notOk[i]);
        assert notOk[..i + 1] == notOk[..i] + [notOk[i]];
        view.panel := view.panel + notOk[i] + "\n";
      }
      assert notOk[..|notOk|] == notOk;
      assert ([Headline(result.success, time)] + notOk)[1..] == notOk;
      view.panelShown := !result.success;
    }
  }

  /** Two saves in a row while the first run is still going start one worker
      only; once that worker has finished and been polled, the next save
      starts a new one. */
  method SaveWhileRunning(view: View, folder: Path, time: string)
    modifies view
  {
    var command := new RunMochaCommand();
    command.RunMocha(view, folder, true, null, time);
    var first := command.worker;
    command.RunMocha(view, folder, true, null, time);
    assert command.worker == first && command.started == 1;
    command.CheckForCompletion(view, false, null, time);
    assert command.worker == null;
    command.RunMocha(view, folder, true, null, time);
    assert command.worker != first && command.started == 2;
  }
}
