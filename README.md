# Android volatile data collection, modelled in Dafny

`Android_volatile_data.py` collects forensic data from an Android device over
`adb`. It asks for a case number and an output directory, starts a session log,
lists the attached devices, lets the operator pick one, dumps `logcat` and
`dumpsys` from it into two files, zips them and writes an MD5 sidecar. This
project models the parts of that script that are deterministic text and state
logic, and proves what they do:

- `strings.dfy` (module `Strings`): the Python `str` operations the script uses.
  These are `isspace`, `strip()` and `strip(chars)`, `split(sep)` for a
  one-character separator, and the substring test `sub in s`.
- `devices.dfy` (module `Devices`): parsing the `adb devices` listing into
  device ids (lines 56-57), and the selection check on the operator's 1-based
  choice (lines 59-73).
- `artifacts.dfy` (module `Artifacts`): cleaning the typed output directory
  (line 46), and the five artifact file names (lines 50, 77, 83, 89, 97).
  The names are joined to the directory with a POSIX `os.path.join`.
- `filestore.dfy` (module `FileStore`): the file system is a map from path to
  text, and the class `FileSystem` holds it together with a clock.
  `write_log`, `log_error` and `run_subprocess` (lines 11-35) are methods that
  update that map. Each method is tied to a function of the old state
  (`Appended`, `AfterRun`), and the lemmas about those functions state the
  logging policy.
- `session.dfy` (modules `Messages`, `Session`): the script's own steps, lines
  45-86, as methods over a `FileSystem`. The operator's input and each
  command's output are parameters. `Collect` runs the steps in order.

Each log line is `timestamp + " - " + message + "\n"`. The timestamp is the
clock reading `clock(ticks)`, which is opaque, and every logged line takes the
next reading.

Some behaviour of the script is easy to misread, and the model follows the
code in each case:

- Both fatal paths (no devices, invalid selection) call `exit(1)` (lines 61
  and 71), so the script stops with status 1. The model ends them with
  `Devices.FailureStatus`, which is 1.
- The device id is the text before the first tab (`split("\t")[0]`, line
  57). A line whose id is separated by spaces yields the whole line.
- When a command prints nothing, `run_subprocess` does not open its output
  file (lines 28-32). The file is neither created nor emptied, and stays
  exactly as it was.
- The session log is not append-only. Line 55 passes the log itself as the
  output file of `adb devices`, so any listing output replaces the log (see
  Findings). The main-flow methods (`DetectDevices`, `Prepare`, `Collect`)
  model this behaviour as written. Corrected append-only variants of
  `run_subprocess` and of detection are given beside them
  (`FileStore.FileSystem.RunSubprocessKeepingLog`,
  `Session.DetectDevicesKeepingLog`), with the append-only property proved.

## Model

| member | source | states |
|---|---|---|
| Strings.StripShape | Android_volatile_data.py:46 | `strip` removes only stripped characters, and only from the two ends: the result is a block of the text, everything before and after that block is stripped characters, the block neither starts nor ends with a stripped character, and it is empty exactly when every character is stripped |
| Strings.SplitPieces | Android_volatile_data.py:56-57 | no piece of `split(sep)` contains the separator |
| Strings.JoinSplit | Android_volatile_data.py:56 | joining the pieces of `split("\n")` with the separator gives back the original text, so no character is lost |
| Strings.SplitCount | Android_volatile_data.py:56 | `split(sep)` has exactly one piece more than the number of separators in the text |
| Strings.FirstPiece | Android_volatile_data.py:57 | the first piece of a split is a prefix of the text that is either the whole text or is followed by the separator |
| Strings.ContainsAt | Android_volatile_data.py:57 | the test `"device" in line` holds exactly when the text occurs at some position of the line |
| Devices.DeviceIdShape | Android_volatile_data.py:57 | a device id is the prefix of its line up to the first tab: it has no tab and is either the whole line or followed by a tab |
| Devices.CandidatesShape | Android_volatile_data.py:57 | there are at most as many ids as lines, and no id contains a tab |
| Devices.ParsedDevicesShape | Android_volatile_data.py:56-57 | empty output gives no devices; otherwise there is at most one device per line after the header, and no id contains a tab |
| Devices.LineKeptIffMarked | Android_volatile_data.py:57 | wherever a line stands, it contributes its id exactly when it contains "device", between the ids of the lines before it and those after it, so ids keep line order |
| Devices.CandidatesConcat | Android_volatile_data.py:57 | the ids of concatenated line lists are the concatenated ids |
| Devices.CandidateFromMarkedLine | Android_volatile_data.py:57 | every id comes from a line that contains "device" |
| Devices.HeaderIgnored | Android_volatile_data.py:56-57 | a first line with some non-blank text never yields a device, whatever else it contains: the devices are those of the lines after it. (A listing that starts with a newline loses that newline to `strip()`, and its next line becomes the header.) |
| Devices.ExampleListing | Android_volatile_data.py:56-57 | "List of devices attached\nabc123\tdevice\ndef456\toffline" gives exactly ["abc123"], although the header contains "device" |
| Devices.Select | Android_volatile_data.py:59-73 | an empty list fails with "no devices" before any choice; otherwise a choice is accepted iff 1 <= n <= count, and then it gives `devices[n-1]`; any other choice fails with "invalid selection" |
| Artifacts.CleanOutputPath | Android_volatile_data.py:46 | the cleaned path is what was typed with only whitespace and quote characters removed, and only from its two ends; it neither starts nor ends with a quote character |
| Artifacts.UnquotedPathTrimmed | Android_volatile_data.py:46 | a directory typed without quotes, whose first and last characters are neither whitespace nor a quote, comes back exactly as typed, with the whitespace around it removed |
| Artifacts.QuotedPathKeepsInnerSpace | Android_volatile_data.py:46 | whitespace around the quotes is removed and whitespace inside them is kept: a quoted directory comes back exactly as written between the quotes |
| Artifacts.CleaningNotIdempotent | Android_volatile_data.py:46 | because whitespace is stripped before the quotes, cleaning twice can differ from cleaning once |
| Artifacts.JoinInjective | Android_volatile_data.py:50 | joining two different relative names to one directory gives two different paths |
| Artifacts.ArtifactPathsDistinct | Android_volatile_data.py:50-97 | the log, logcat, dumpsys, archive and hash paths of one run are five different files for any case number, device id and directory |
| Artifacts.DeviceNamesInjective | Android_volatile_data.py:77-89 | within one case, the logcat, dumpsys and archive names each determine the device id |
| Artifacts.SidecarNotNamedAfterArchive | Android_volatile_data.py:89-97 | the hash sidecar is not the archive name with `.md5` as extension, because it omits the device id |
| FileStore.LogLine | Android_volatile_data.py:13-16 | a log line is the timestamp, the 3-character separator, the message and one newline |
| FileStore.RunLogStamped | Android_volatile_data.py:28-34 | `run_subprocess` logs exactly `RunTicks(out)` lines, taking the clock readings `tick`, `tick + 1`, … in order: the "No output" message first when stdout is empty, then stderr when there is any. It logs nothing exactly when it takes no reading |
| FileStore.RunStoresStdout | Android_volatile_data.py:28-30 | with non-empty stdout, the output file holds exactly stdout and the log gains only the stderr line, if there is one |
| FileStore.RunReportsNoOutput | Android_volatile_data.py:31-34 | with empty stdout, the output file is untouched (absent if it was absent) and the log gains the "No output" line, then the stderr line |
| FileStore.RunTouchesOnlyItsFiles | Android_volatile_data.py:26-35 | no file other than the output file and the log changes or comes into existence |
| FileStore.RunKeepsLogOtherwise | Android_volatile_data.py:26-35 | unless stdout is written over the log itself, the log only grows, by the lines `run_subprocess` logs |
| FileStore.RunOverwritesSharedLog | Android_volatile_data.py:28-34 | when the output file is the log and stdout is non-empty, the log becomes stdout followed by the stderr line, and its earlier text is lost |
| FileStore.KeepingLogOnlyAppends | Android_volatile_data.py:26-35 | under the corrected policy the log is append-only, and for any other output file the policy is the original one |
| FileStore.FileSystem.WriteLog | Android_volatile_data.py:11-16 | appends one timestamped line to the log, creating the log if it is missing, and takes one clock reading |
| FileStore.FileSystem.LogError | Android_volatile_data.py:19-23 | appends the same line `WriteLog` would append |
| FileStore.FileSystem.RunSubprocess | Android_volatile_data.py:26-35 | the new files are `AfterRun` of the old ones, and the result carries the command and its outputs |
| FileStore.FileSystem.RunSubprocessKeepingLog | Android_volatile_data.py:26-35 | the corrected `run_subprocess`: the old log is a prefix of the new one |
| Session.Start | Android_volatile_data.py:45-51 | the output path is the cleaned typed path, the log is `log_case_<c>.log` in it, and "Logging started" is appended (for a path that cleans to the empty text, see `os.makedirs` under Left out) |
| Session.RunListing | Android_volatile_data.py:54-55 | logs the check, then runs `adb devices` with the log as its output file |
| Session.ReportDetection | Android_volatile_data.py:59-61 | with no device, logs "No Android devices detected!" and exits with status 1; otherwise it continues with the list and changes nothing |
| Session.ReportOnlyAppends | Android_volatile_data.py:59-61 | reporting detection only appends to the log |
| Session.DetectDevices | Android_volatile_data.py:54-61 | exits with status 1 exactly when the parsed listing is empty, otherwise continues with the parsed devices |
| Session.DetectionDiscardsEarlierLog | Android_volatile_data.py:55 | as written, a non-empty listing becomes the start of the log. When the earlier log is non-empty and its first character differs from the listing's, the earlier text is no longer a prefix of the log |
| Session.DetectionLeavesOthers | Android_volatile_data.py:54-61 | detection changes no file but the log |
| Session.DetectionKeepingLogAppends | Android_volatile_data.py:54-61 | under the corrected policy, detection only appends to the log |
| Session.RunListingKeepingLog | Android_volatile_data.py:54-55 | the listing step under the corrected policy |
| Session.DetectDevicesKeepingLog | Android_volatile_data.py:54-61 | the same exit decision as `DetectDevices`, the old log is a prefix of the new one, and the clock has taken one reading per logged line |
| Session.DecimalDigits | Android_volatile_data.py:66 | `str(index)` of a menu number is a non-empty run of decimal digits |
| Session.DecimalValue | Android_volatile_data.py:66 | the digits `str(index)` writes denote the number itself, and only 0 is written with a leading '0' |
| Session.DecimalInjective | Android_volatile_data.py:66 | two menu numbers are written alike only if they are equal, so no two menu lines carry the same number |
| Session.MenuInListOrder | Android_volatile_data.py:65-66 | the menu the loop appends is one line per device in list order, the first numbered 1, each number one more than the one before, each line taking the next clock reading |
| Session.MenuSplit | Android_volatile_data.py:65-66 | the lines the loop has written for the first n devices, followed by the list-order lines for the remaining devices, make up the whole menu |
| Session.WriteMenu | Android_volatile_data.py:65-66 | appends one line "<i>) <device>" per device, in list order, numbered from 1 |
| Session.ShowMenu | Android_volatile_data.py:64-66 | appends "Connected Devices:" and then the numbered menu |
| Session.Confirm | Android_volatile_data.py:68-74 | continues with `devices[n-1]` iff 1 <= n <= count and logs "Selected Device: ..."; otherwise logs "Invalid selection. Exiting." and exits with status 1 |
| Session.SelectDevice | Android_volatile_data.py:63-74 | the menu, then the outcome line, with the same accept/reject decision as `Confirm` |
| Session.Capture | Android_volatile_data.py:78-80 | one capture: the announcement, `run_subprocess` of the given command into the capture file, then the "saved" line. The `run_subprocess` record it returns carries that command and what it printed |
| Session.CaptureLogcat | Android_volatile_data.py:77-80 | the logcat capture goes to `logcat_case_<c>_device_<d>.txt` and runs `adb -s <d> logcat -b all -v UTC,usec -d` |
| Session.CaptureDumpsys | Android_volatile_data.py:83-86 | the dumpsys capture goes to `dumpsys_case_<c>_device_<d>.txt` and runs `adb -s <d> shell dumpsys` |
| Session.CaptureOwnFile | Android_volatile_data.py:78-80 | a capture into a file other than the log keeps the log's text as a prefix, and its file holds exactly the non-empty output |
| Session.CaptureKeepsLog | Android_volatile_data.py:76-86 | a capture into the run's own logcat or dumpsys file never disturbs the session log |
| Session.CaptureLeavesOthers | Android_volatile_data.py:83-86 | a capture changes no file but the log and its own capture file |
| Session.PrepareLog | Android_volatile_data.py:45-74 | after lines 45-74 the log starts with the listing when the listing printed anything, keeps its earlier text as a prefix when it printed nothing, and in every case ends with the outcome line: no devices, invalid selection, or the selected device |
| Session.PrepareLeavesOthers | Android_volatile_data.py:45-74 | lines 45-74 change no file but the session log, and create none |
| Session.Prepare | Android_volatile_data.py:45-74 | exits with status 1 iff no device is listed or the choice is out of range, otherwise selects `devices[n-1]`; the new files are `AfterPrepare` of the old ones, the clock has taken one reading per logged line, and every file but the log is as it was |
| Session.CapturesOutcome | Android_volatile_data.py:76-86 | after both captures into two different files other than the log, each capture file holds exactly what its command printed, or is as it was (absent if it was absent) when the command printed nothing; the log keeps its earlier text as a prefix |
| Session.CapturesLeaveOthers | Android_volatile_data.py:76-86 | both captures change no file but the log and the two capture files |
| Session.CaptureBoth | Android_volatile_data.py:76-86 | the new files are `AfterCaptures` of the old ones: the logcat capture into `logcat_case_<c>_device_<d>.txt`, then the dumpsys capture into `dumpsys_case_<c>_device_<d>.txt`, and the clock has taken one reading per logged line |
| Session.CollectCaptures | Android_volatile_data.py:45-86 | what both captures guarantee still holds measured from before lines 45-74, because those lines wrote only the log |
| Session.Collect | Android_volatile_data.py:45-86 | the whole run. It stops with status 1 exactly when no device is listed or the choice is out of range; then the files are `AfterPrepare` of the old ones, no file but the log has changed, and the log ends with the reason. Otherwise it returns the selected device's two capture paths, the files are `AfterCaptures` after `AfterPrepare`, each capture file holds what its command printed or is as it was when the command printed nothing, and no other file but the log has changed. A listing that printed anything is at the head of the log. On each branch the clock has taken one reading per logged line |

## Left out

- Running `adb` (line 27) is not modelled: each command's decoded stdout and stderr are parameters (`FileStore.Output`). Dropping undecodable bytes (`errors='ignore'`) is left out with it.
- The console echo of `write_log` (line 14) is not modelled.
- The `input()` prompts (lines 45, 46, 68) are not modelled: what the operator types is a parameter. The device choice is an already-parsed integer, so a non-numeric answer, which makes `int()` raise, is not modelled.
- The format of `time.strftime` (lines 12, 20) is not modelled: a timestamp is an opaque clock reading.
- `os.makedirs` (line 49) is not modelled. When the typed path cleans to the empty text (e.g. `''`), `os.makedirs("")` raises `FileNotFoundError` and the script stops before logging anything; `Session.Start` instead appends "Logging started" to `log_case_<c>.log`. Directory creation, and its failures, are outside the model.
- Artifacts.Join: models POSIX `os.path.join`. Windows drive letters and backslash separators are not modelled.
- Creating the zip archive (lines 88-94) and the MD5 hash and its sidecar (lines 96-106) are left out. They are library calls whose results cannot be stated without their implementations. Only their file names are modelled, in `Artifacts`.
- The closing log lines (lines 108-109) and the idle loop (lines 111-112) are left out.
- Writes are modelled as always succeeding. In the script, `open` on the log (line 15) or on a capture file (line 29) raises when the path cannot be written, for example when the case number contains `/` and so names a missing directory, or when the output directory is read-only. That exception is not modelled.
- The SIGINT handler and `sys.exit` (lines 37-42) are left out, because they are signal and process control. The two `exit(1)` calls are modelled as the `Session.Step` value `Exit(1)`.

## Findings

| source | as written | input that shows it | evidently intended | confidence | as-written member | corrected member |
|---|---|---|---|---|---|---|
| Android_volatile_data.py:55 | `run_subprocess(["adb", "devices"], log_file, log_file)` writes the listing over the session log. The "Logging started" and "Checking for connected Android devices..." lines are lost. | any non-empty `adb devices` output, such as "List of devices attached\nabc123\tdevice\n"; the log then starts with "List of devices attached" | the session log is append-only, so the listing should be appended to it | high; not executed | Session.DetectionDiscardsEarlierLog | Session.DetectionKeepingLogAppends |
