# Mocha runner on save: a Dafny model

This project models the Sublime Text plugin `MochaRunner.py`. When a file is
saved, the plugin does four things:

- It walks up from the file's directory to the first folder that has a `test`
  child directory.
- In that folder it runs `mocha -R tap` on a background worker thread, but only
  if no worker is already in flight.
- It polls the worker every 20 ms.
- The worker splits the runner's TAP output into `ok`, `not ok` and other
  lines before it finishes. The first poll after the worker has finished writes
  a `SUCCESS`/`FAILED` headline and the failing lines to an output panel and
  the status bar. The panel is shown only for a failed run.

Modules:

- `Text` (`text.dfy`): Python's `startswith`, and `splitlines` with `"\n"` as
  the only separator. `JoinLines` (each line plus `"\n"`) is its partner, and
  the file proves round trips in both directions.
- `Tap` (`tap.dfy`): the line classification. It has the `Select` filter, the
  partition, order and prefix lemmas, and the `MochaResult` class. The class's
  constructor appends each line to one of three list fields in a loop, as the
  source does.
- `MochaRunner` (`runner.dfy`):
  - The folder search, a loop that pops one path component per step. It is
    proved against the reference function `Nearest`, and that function's
    contract says what "nearest folder" means.
  - The worker thread's result.
  - The save listener, a class whose `worker` field is either null or the one
    worker in flight. It has `RunMocha`, `CheckForCompletion` and
    `OutputResult`.
  - The editor's view, a class that records the status text, the panel text,
    whether the panel is shown, and how many polls have been scheduled.

How the environment enters the model:

- Paths are sequences of components: `/a/b` is `["", "a", "b"]`.
- An empty component sequence stands for a view with no file name, which
  covers both `None` and `''`.
- The file system is a parameter: the set of existing directories, each given
  by its path.
- The worker's liveness and the worker's result are parameters of each poll.
- The clock's `HH:MM:SS` string is a parameter.
- The process's exit status and its output text are a `ProcessOutput` value.
  The output is the text `getstatusoutput` returns, that is, after
  `pipes.quote` (MochaRunner.py:158); quoting itself is not modelled.

What the plugin does not do, and the model therefore does not either:

- There is no timeout and no forced termination of a running test process.
- There is no separate stderr channel: stderr is merged into stdout
  (MochaRunner.py:152).
- The headline carries no OK/FAIL/TOTAL counts, only `SUCCESS` or `FAILED`
  and the time.
- `success` comes from the exit status alone (0, or a status of None), not
  from the parsed lines (MochaRunner.py:142).

## Model

| member | source | states |
|---|---|---|
| `Text.StartsWith` | MochaRunner.py:104-106 | `line.startswith(p)`: the line is at least as long as `p` and its first `len(p)` characters are `p` |
| `Text.StartsWithAt` | MochaRunner.py:104-106 | the prefix test holds iff the line is at least as long as `p` and agrees with it character by character on `p`'s length |
| `Text.SplitLines` | MochaRunner.py:143 | `splitlines` with "\n" as the only separator gives no lines exactly for the empty text, and never more lines than characters |
| `Text.LineEnd` | MochaRunner.py:143 | the first line of a text ends at the first "\n" (or at the end), and holds no "\n" |
| `Text.JoinLines` | MochaRunner.py:81-82 | the text of a list of lines, each ended by "\n", is empty exactly for no lines and otherwise ends in "\n" |
| `Text.JoinLinesSnoc` | MochaRunner.py:81-82 | appending one more line appends that line and its "\n" to the text, which is what each panel insert does |
| `Text.SplitLinesNoNewline` | MochaRunner.py:143 | no line that `splitlines` returns contains a "\n" |
| `Text.LineEndJoined` | MochaRunner.py:143 | the first line of `l + "\n" + rest` is `l` when `l` has no "\n" |
| `Text.SplitJoin` | MochaRunner.py:143 | splitting the join of "\n"-free lines gives back exactly those lines |
| `Text.Terminated` | MochaRunner.py:143 | the text with a final "\n" added where its last line has none; a non-empty result ends in "\n" |
| `Text.TerminatedCons` | MochaRunner.py:143 | terminating `line + "\n" + t` terminates `t` and keeps the first line |
| `Text.JoinLinesCons` | MochaRunner.py:81-82 | the joined text of a list with a first line is that line, a "\n", then the joined rest |
| `Text.JoinSplit` | MochaRunner.py:143 | joining the lines of a text gives the text back, plus a final "\n" if its last line had none |
| `Tap.PrefixesExclusive` | MochaRunner.py:104-107 | no line starts with both "ok" and "not ok" |
| `Tap.Classify` | MochaRunner.py:104-109 | a line is an ok line iff it starts with "ok", a not-ok line iff it starts with "not ok", and otherwise neither; the if/elif order does not matter |
| `Tap.Select` | MochaRunner.py:102-109 | a per-kind list is never longer than the input |
| `Tap.SelectMembers` | MochaRunner.py:102-109 | a line is in the list of a kind iff it is an input line of that kind, in both directions |
| `Tap.SelectCons` | MochaRunner.py:102-109 | a first input line goes to the front of its own kind's list and to no other |
| `Tap.SelectAppend` | MochaRunner.py:102-109 | the list for `a + b` is the list for `a` followed by the list for `b`, so relative order is kept |
| `Tap.SelectSnoc` | MochaRunner.py:102-109 | one more input line is appended to the list of its own kind and leaves the other two lists unchanged |
| `Tap.SelectIsSubsequence` | MochaRunner.py:102-109 | each of the three lists is a subsequence of the input lines, in input order |
| `Tap.Partition` | MochaRunner.py:102-109 | the three lists together hold each input line exactly as often as the input does |
| `Tap.PartitionLength` | MochaRunner.py:98-109 | the three list lengths add up to the number of input lines |
| `Tap.NotOkNeverOk` | MochaRunner.py:104-107 | a "not ok ..." line never starts with "ok", is never in `lines_ok`, and always lands in `lines_not_ok` |
| `Tap.MochaResult.constructor` | MochaRunner.py:94-109 | stores `success` and `lines` unchanged; after the loop the three fields are exactly the ok, not-ok and other lines of the input |
| `MochaRunner.Dir` | MochaRunner.py:28 | the model's definition of `os.path.dirname`: the file's path without its last component; it has no contract of its own |
| `MochaRunner.HasChild` | MochaRunner.py:35 | `os.path.exists(joined) and os.path.isdir(joined)` for `joined` the folder plus `name`, as membership in the set of existing directories |
| `MochaRunner.Nearest` | MochaRunner.py:28-38 | the result is the longest non-empty prefix of the directory's components that has a child `name`; None iff no non-empty prefix has one |
| `MochaRunner.Locate` | MochaRunner.py:25-38 | `''` iff the view has no file name; a found folder is the `Nearest` prefix of the file's directory; None iff there is a file name and `Nearest` finds nothing |
| `MochaRunner.RunMochaCommand.FindFolder` | MochaRunner.py:23-38 | the popping loop terminates and returns exactly `Locate` of the file, name and existing directories |
| `MochaRunner.GetStatusOutput` | MochaRunner.py:147-159 | the status is 0 iff `wait()` returned None or 0, and is otherwise the returned status; the quoted output text is returned with it |
| `MochaRunner.Headline` | MochaRunner.py:71-78 | the headline starts with "SUCCESS - " iff the run succeeded, with "FAILED - " iff it failed, ends with the time string, and is exactly as long as that word plus the time, so nothing lies in between |
| `MochaRunner.PanelText` | MochaRunner.py:66-82 | the panel text starts with the headline and its "\n", and the rest is the joined not-ok lines |
| `MochaRunner.PanelLines` | MochaRunner.py:66-82 | read back line by line, the panel is the headline followed by the not-ok lines in order |
| `MochaRunner.ReportedFailures` | MochaRunner.py:81-82 | for any output text `splitlines` receives (the quoted text), the panel reads back as the headline followed by exactly that text's not-ok lines |
| `MochaRunner.RunMochaWorker.constructor` | MochaRunner.py:113-119 | a new worker has its folder and no result |
| `MochaRunner.RunMochaWorker.Run` | MochaRunner.py:121-130 | a run that raised leaves the result None; otherwise the result is a fresh, classified `MochaResult` |
| `MochaRunner.RunMochaWorker.RunMocha` | MochaRunner.py:133-145 | the result succeeds iff the status is None or 0, and holds the quoted output text split into lines |
| `MochaRunner.RunMochaCommand.constructor` | MochaRunner.py:11 | the listener starts with no worker in flight |
| `MochaRunner.RunMochaCommand.OnPostSave` | MochaRunner.py:14-21 | nothing changes when no test folder is found; otherwise it does what `RunMocha` does on the found folder, with the same new worker slot and view state |
| `MochaRunner.RunMochaCommand.RunMocha` | MochaRunner.py:40-47 | changes nothing while a worker exists; otherwise it installs exactly one fresh worker on the folder and polls it once |
| `MochaRunner.RunMochaCommand.CheckForCompletion` | MochaRunner.py:49-59 | while the worker is alive, only the status ("Testing ...") and one scheduled re-poll change; once it is dead, the result is reported iff it is non-None and the worker slot is cleared |
| `MochaRunner.RunMochaCommand.OutputResult` | MochaRunner.py:61-90 | the panel is the headline plus "\n", then each not-ok line plus "\n"; the status is the same first line; the panel is shown iff the run failed |

## Left out

- Sublime's editor API (`get_output_panel`, edits, `set_status`, `run_command`, `set_timeout`) is replaced by the `View` fields. The panel's scroll position (`out.show`) is not modelled.
- Threads are not modelled (`threading.Thread`, `start`, `is_alive`). Each poll takes the worker's liveness and its result as parameters. The hand-off of the worker's `result` field to the poll is not modelled.
- Process and I/O plumbing is not modelled: `subprocess.Popen`, `os.chdir`, the shell command line, and the `print` logging. `RunMocha` and `Run` take the exit status and the quoted output text as a `ProcessOutput`.
- Exception handling in the worker (MochaRunner.py:123-130) appears only as "the result may be None".
- `os.path.exists`, `isdir` and `normpath` are not modelled. Existence is membership in a set of component paths. The file's directory and the name `test` are taken to be already normalised, single components. The root prefix `[""]` stands for the folder that `normpath('')` would print as `'.'`.
- `datetime.now().strftime('%H:%M:%S')` is not modelled: the time string is a parameter. The panel lemmas assume it contains no "\n".
- `pipes.quote` on the captured output (MochaRunner.py:158) is not modelled. `ProcessOutput.output` is the text after quoting, treated as opaque. Depending on the Python version and on the characters in the output, quoting may wrap the whole text in quotes and escape characters in any line. A quote added before the first line can turn an `ok` or `not ok` first line into an "other" line. The model's statements about ok and not-ok lines are about the quoted lines.
- `Text.SplitLines` splits on "\n" only. For a Python 2 `str`, `splitlines` also breaks at "\r" and "\r\n". The pipe is opened with `universal_newlines=True` (MochaRunner.py:151), which turns both into "\n" as the output is read, so no line break is lost for this program.
- The `description` class attribute is not modelled: it is a constant the plugin never reads.
