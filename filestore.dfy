/**
 * The logging and command-running helpers (Android_volatile_data.py,
 * lines 11-35) over a model of the file system: a map from path to text.
 * A path that is not in the map is a file that does not exist. Opening a
 * file for append creates it when missing; opening it for writing replaces
 * its content.
 *
 * The wall clock is a parameter of the model: every logged line takes the
 * next reading, `Stamp(clock, ticks)`, and what the reading looks like is left
 * open.
 */
module FileStore {
  import opened Strings

  /** What a finished command printed, already decoded to text. */
  datatype Output = Output(stdout: string, stderr: string)

  /** What `run_subprocess` hands back: the command and what it printed. */
  datatype Completed = Completed(args: seq<string>, stdout: string, stderr: string)

  /** Logged when a command printed nothing on standard output. */
  const NoOutputMessage := "No output from subprocess command."

  /** One log line: the timestamp, " - ", the message and a newline. */
  function LogLine(stamp: string, message: string): (line: string)
    ensures |line| == |stamp| + 3 + |message| + 1
  {
    stamp + " - " + message + "\n"
  }

  /** The clock reading number `tick`. */
  function Stamp(clock: nat -> string, tick: nat): string {
    clock(tick)
  }

  /** The text of a file, empty when it does not exist. */
  function Content(files: map<string, string>, path: string): string {
    if path in files then files[path] else ""
  }

  /** Opening `path` for append and writing `text`. */
  function Appended(files: map<string, string>, path: string, text: string): map<string, string> {
    files[path := Content(files, path) + text]
  }

  /** Appending to a file extends its text by exactly the appended text. */
  lemma ContentAppended(files: map<string, string>, path: string, text: string)
    ensures Content(Appended(files, path, text), path) == Content(files, path) + text
  {
  }

  /** `path` is in the same state in `a` and in `b`: absent from both, or
      present in both with the same text. */
  predicate SameFile(a: map<string, string>, b: map<string, string>, path: string) {
    (path in a <==> path in b) && (path in a ==> a[path] == b[path])
  }

  /** Appending keeps what the file held in front of the new text. */
  lemma AppendedGrows(files: map<string, string>, path: string, text: string)
    ensures IsPrefix(Content(files, path), Content(Appended(files, path, text), path))
    ensures IsSuffix(text, Content(Appended(files, path, text), path))
  {
    var c := Content(files, path) + text;
    assert c[..|Content(files, path)|] == Content(files, path);
    assert c[|c| - |text|..] == text;
  }

  /** Appending keeps any head of the file and ends the file with any
      tail of the appended text. */
  lemma AppendedKeeps(files: map<string, string>, path: string, text: string, head: string, tail: string)
    requires IsPrefix(head, Content(files, path)) && IsSuffix(tail, text)
    ensures IsPrefix(head, Content(Appended(files, path, text), path))
    ensures IsSuffix(tail, Content(Appended(files, path, text), path))
  {
    AppendedGrows(files, path, text);
    PrefixOfPrefix(head, Content(files, path), Content(Appended(files, path, text), path));
    var c := Content(Appended(files, path, text), path);
    assert c[|c| - |tail|..] == text[|text| - |tail|..];
  }

  /** Two appends to one file are one append of both texts. */
  lemma AppendedTwice(files: map<string, string>, path: string, a: string, b: string)
    ensures Appended(Appended(files, path, a), path, b) == Appended(files, path, a + b)
  {
    assert Content(files, path) + a + b == Content(files, path) + (a + b);
  }

  /** The lines `run_subprocess` logs, in order: the "no output" line when
      standard output is empty, then standard error when there is any; the
      first takes the reading at `tick`. */
  function RunLog(out: Output, clock: nat -> string, tick: nat): string {
    var noOutput := if out.stdout == "" then LogLine(Stamp(clock, tick), NoOutputMessage) else "";
    var next := if out.stdout == "" then tick + 1 else tick;
    noOutput + (if out.stderr != "" then LogLine(Stamp(clock, next), out.stderr) else "")
  }

  /** `RunLog` case by case, the helper for `run_subprocess`'s proofs. */
  lemma RunLogCases(out: Output, clock: nat -> string, tick: nat)
    ensures var log := RunLog(out, clock, tick);
      && (out.stdout != "" && out.stderr == "" ==> log == "")
      && (out.stdout != "" && out.stderr != "" ==> log == LogLine(Stamp(clock, tick), out.stderr))
      && (out.stdout == "" && out.stderr == "" ==> log == LogLine(Stamp(clock, tick), NoOutputMessage))
      && (out.stdout == "" && out.stderr != "" ==>
            log == LogLine(Stamp(clock, tick), NoOutputMessage) + LogLine(Stamp(clock, tick + 1), out.stderr))
  {
    var s := LogLine(Stamp(clock, tick), out.stderr);
    var n := LogLine(Stamp(clock, tick), NoOutputMessage);
    assert "" + s == s && n + "" == n;
  }

  /** The log lines for `messages`, in order: the first takes the reading
      at `tick` and each later one the reading after its predecessor's. */
  function StampedLines(messages: seq<string>, clock: nat -> string, tick: nat): string
    decreases |messages|
  {
    if messages == [] then ""
    else LogLine(Stamp(clock, tick), messages[0]) + StampedLines(messages[1..], clock, tick + 1)
  }

  /** The messages `run_subprocess` logs, in order: the "no output"
      message when standard output is empty, then standard error when
      there is any. */
  function RunMessages(out: Output): seq<string> {
    (if out.stdout == "" then [NoOutputMessage] else []) + (if out.stderr != "" then [out.stderr] else [])
  }

  /** `run_subprocess` logs exactly `RunTicks(out)` lines, at the readings
      `tick`, `tick + 1`, … in order: "no output" first, then standard
      error; and it logs nothing exactly when it takes no reading. */
  lemma {:induction false} RunLogStamped(out: Output, clock: nat -> string, tick: nat)
    ensures |RunMessages(out)| == RunTicks(out)
    ensures RunLog(out, clock, tick) == StampedLines(RunMessages(out), clock, tick)
    ensures RunLog(out, clock, tick) == "" <==> RunTicks(out) == 0
  {
    var n := LogLine(Stamp(clock, tick), NoOutputMessage);
    var e := LogLine(Stamp(clock, tick), out.stderr);
    var e1 := LogLine(Stamp(clock, tick + 1), out.stderr);
    assert StampedLines([], clock, tick + 2) == "";
    assert StampedLines([out.stderr], clock, tick + 1) == e1 + "";
    assert StampedLines([out.stderr], clock, tick) == e + "";
    assert StampedLines([NoOutputMessage], clock, tick) == n + "";
    if out.stdout == "" && out.stderr != "" {
      assert RunMessages(out) == [NoOutputMessage, out.stderr];
      assert [NoOutputMessage, out.stderr][1..] == [out.stderr];
      assert |n| > 0;
    } else if out.stdout == "" {
      assert RunMessages(out) == [NoOutputMessage];
      assert |n| > 0;
    } else if out.stderr != "" {
      assert RunMessages(out) == [out.stderr];
      assert |e| > 0;
    } else {
      assert RunMessages(out) == [];
    }
  }

  /** How many clock readings `run_subprocess` takes. */
  function RunTicks(out: Output): nat {
    (if out.stdout == "" then 1 else 0) + (if out.stderr != "" then 1 else 0)
  }

  /** The files after `run_subprocess`: a non-empty standard output
      replaces the output file, then the log lines are appended to the log
      (which may be the same file). */
  function AfterRun(files: map<string, string>, outputFile: string, logFile: string,
                    out: Output, clock: nat -> string, tick: nat): map<string, string>
  {
    var written := if out.stdout != "" then files[outputFile := out.stdout] else files;
    if RunLog(out, clock, tick) == "" then written
    else Appended(written, logFile, RunLog(out, clock, tick))
  }

  /** Standard output on its own file: that file now holds exactly what
      the command printed, and the log gains only the standard-error line
      (nothing for standard output). */
  lemma RunStoresStdout(files: map<string, string>, outputFile: string, logFile: string,
                        out: Output, clock: nat -> string, tick: nat)
    requires out.stdout != "" && outputFile != logFile
    ensures var after := AfterRun(files, outputFile, logFile, out, clock, tick);
            outputFile in after && after[outputFile] == out.stdout
            && Content(after, logFile) == Content(files, logFile)
                 + (if out.stderr != "" then LogLine(Stamp(clock, tick), out.stderr) else "")
  {
  }

  /** Empty standard output leaves the output file as it was (absent if it
      was absent) and logs one "no output" line, then standard error. */
  lemma RunReportsNoOutput(files: map<string, string>, outputFile: string, logFile: string,
                           out: Output, clock: nat -> string, tick: nat)
    requires out.stdout == "" && outputFile != logFile
    ensures var after := AfterRun(files, outputFile, logFile, out, clock, tick);
            (outputFile in after <==> outputFile in files)
            && Content(after, outputFile) == Content(files, outputFile)
            && Content(after, logFile) == Content(files, logFile) + LogLine(Stamp(clock, tick), NoOutputMessage)
                 + (if out.stderr != "" then LogLine(Stamp(clock, tick + 1), out.stderr) else "")
  {
  }

  /** Only the output file and the log can change. */
  lemma RunTouchesOnlyItsFiles(files: map<string, string>, outputFile: string, logFile: string,
                               out: Output, clock: nat -> string, tick: nat, other: string)
    requires other != outputFile && other != logFile
    ensures var after := AfterRun(files, outputFile, logFile, out, clock, tick);
            (other in after <==> other in files) && Content(after, other) == Content(files, other)
  {
  }

  /** Unless standard output is written over the log itself, the log only
      grows, by the clock readings' lines and nothing else. */
  lemma RunKeepsLogOtherwise(files: map<string, string>, outputFile: string, logFile: string,
                             out: Output, clock: nat -> string, tick: nat)
    requires out.stdout == "" || outputFile != logFile
    ensures var after := AfterRun(files, outputFile, logFile, out, clock, tick);
            Content(after, logFile) == Content(files, logFile) + RunLog(out, clock, tick)
  {
  }

  /** When the output file IS the log and the command printed something,
      the log is replaced: it holds the command's output followed by the
      standard-error line, and nothing of what it held before. */
  lemma RunOverwritesSharedLog(files: map<string, string>, logFile: string,
                               out: Output, clock: nat -> string, tick: nat)
    requires out.stdout != ""
    ensures Content(AfterRun(files, logFile, logFile, out, clock, tick), logFile)
         == out.stdout + (if out.stderr != "" then LogLine(Stamp(clock, tick), out.stderr) else "")
  {
  }

  /** Corrected policy for a command whose output belongs in the log:
      append it instead of replacing the file. */
  function AfterRunKeepingLog(files: map<string, string>, outputFile: string, logFile: string,
                              out: Output, clock: nat -> string, tick: nat): map<string, string>
  {
    var written := if out.stdout == "" then files
                   else if outputFile == logFile then Appended(files, logFile, out.stdout)
                   else files[outputFile := out.stdout];
    if RunLog(out, clock, tick) == "" then written
    else Appended(written, logFile, RunLog(out, clock, tick))
  }

  /** Under the corrected policy the log is append-only for every command
      and every output file, and nothing changes for other output files. */
  lemma KeepingLogOnlyAppends(files: map<string, string>, outputFile: string, logFile: string,
                              out: Output, clock: nat -> string, tick: nat)
    ensures var after := AfterRunKeepingLog(files, outputFile, logFile, out, clock, tick);
            IsPrefix(Content(files, logFile), Content(after, logFile))
    ensures outputFile != logFile ==>
              AfterRunKeepingLog(files, outputFile, logFile, out, clock, tick)
              == AfterRun(files, outputFile, logFile, out, clock, tick)
  {
    var before := Content(files, logFile);
    var after := AfterRunKeepingLog(files, outputFile, logFile, out, clock, tick);
    var grown := if out.stdout != "" && outputFile == logFile then out.stdout else "";
    assert Content(after, logFile) == before + grown + RunLog(out, clock, tick);
    assert Content(after, logFile)[..|before|] == before;
  }

  /** The file system the script writes to, and the clock it reads. */
  class FileSystem {
    var files: map<string, string>
    var ticks: nat
    const clock: nat -> string

    constructor (clock: nat -> string, files: map<string, string>)
      ensures this.clock == clock && this.files == files && ticks == 0
    {
      this.clock := clock;
      this.files := files;
      ticks := 0;
    }

    /** `write_log`: appends a timestamped line to the log (the echo to
        the console is not modelled). */
    method WriteLog(logFile: string, message: string)
      modifies this
      ensures files == Appended(old(files), logFile, LogLine(Stamp(clock, old(ticks)), message))
      ensures ticks == old(ticks) + 1
    {
      files := Appended(files, logFile, LogLine(Stamp(clock, ticks), message));
      ticks := ticks + 1;
    }

    /** `log_error`: appends the same line as `WriteLog`, to the file only. */
    method LogError(logFile: string, message: string)
      modifies this
      ensures files == Appended(old(files), logFile, LogLine(Stamp(clock, old(ticks)), message))
      ensures ticks == old(ticks) + 1
    {
      files := Appended(files, logFile, LogLine(Stamp(clock, ticks), message));
      ticks := ticks + 1;
    }

    /** `run_subprocess`: `out` is what `command` printed. */
    method RunSubprocess(command: seq<string>, outputFile: string, logFile: string, out: Output)
      returns (result: Completed)
      modifies this
      ensures result == Completed(command, out.stdout, out.stderr)
      ensures files == AfterRun(old(files), outputFile, logFile, out, clock, old(ticks))
      ensures ticks == old(ticks) + RunTicks(out)
    {
      if out.stdout != "" {
        files := files[outputFile := out.stdout];
      } else {
        LogError(logFile, NoOutputMessage);
      }
      if out.stderr != "" {
        LogError(logFile, out.stderr);
      }
      RunLogCases(out, clock, old(ticks));
      if out.stdout == "" && out.stderr != "" {
        AppendedTwice(old(files), logFile, LogLine(Stamp(clock, old(ticks)), NoOutputMessage),
                      LogLine(Stamp(clock, old(ticks) + 1), out.stderr));
      }
      result := Completed(command, out.stdout, out.stderr);
    }

    /** The corrected `run_subprocess`: output meant for the log is
        appended to it. */
    method RunSubprocessKeepingLog(command: seq<string>, outputFile: string, logFile: string, out: Output)
      returns (result: Completed)
      modifies this
      ensures result == Completed(command, out.stdout, out.stderr)
      ensures files == AfterRunKeepingLog(old(files), outputFile, logFile, out, clock, old(ticks))
      ensures ticks == old(ticks) + RunTicks(out)
      ensures IsPrefix(Content(old(files), logFile), Content(files, logFile))
    {
      if out.stdout != "" {
        if outputFile == logFile {
          files := Appended(files, logFile, out.stdout);
        } else {
          files := files[outputFile := out.stdout];
        }
      } else {
        LogError(logFile, NoOutputMessage);
      }
      if out.stderr != "" {
        LogError(logFile, out.stderr);
      }
      RunLogCases(out, clock, old(ticks));
      if out.stdout == "" && out.stderr != "" {
        AppendedTwice(old(files), logFile, LogLine(Stamp(clock, old(ticks)), NoOutputMessage),
                      LogLine(Stamp(clock, old(ticks) + 1), out.stderr));
      }
      KeepingLogOnlyAppends(old(files), outputFile, logFile, out, clock, old(ticks));
      result := Completed(command, out.stdout, out.stderr);
    }
  }
}
