/**
 * The collection script's own steps (Android_volatile_data.py, lines
 * 45-86): open the session log, detect devices, let the operator choose
 * one, capture logcat and dumpsys from it. What the operator types and
 * what each command prints are parameters.
 */
/** The fixed texts the script logs at each step. */
module Messages {
  const StartMessage := "Logging started"
  const CheckingMessage := "Checking for connected Android devices..."
  const ListedMessage := "Connected Devices:"
  const SelectedPrefix := "Selected Device: "
  const LogcatAnnounce := "Capturing logcat logs..."
  const LogcatSaved := "Logcat logs saved: "
  const DumpsysAnnounce := "Capturing dumpsys logs..."
  const DumpsysSaved := "Dumpsys logs saved: "
}

module Session {
  import opened Messages
  import opened Strings
  import opened Devices
  import opened Artifacts
  import opened FileStore

  /** Whether the script goes on with a value, or ends with an exit status. */
  datatype Step<T> = Continue(value: T) | Exit(status: int)

  /** The device-listing command. */
  const ListCommand: seq<string> := ["adb", "devices"]

  /** The logcat dump: all buffers, UTC time with microseconds, dump and exit. */
  function LogcatCommand(device: string): seq<string> {
    ["adb", "-s", device, "logcat", "-b", "all", "-v", "UTC,usec", "-d"]
  }

  /** The dump of every system service. */
  function DumpsysCommand(device: string): seq<string> {
    ["adb", "-s", device, "shell", "dumpsys"]
  }

  /** Lines 45-51: the typed directory is cleaned, the log lives in it,
      and the first line is logged. (Creating the directory is not
      modelled.) */
  method Start(fs: FileSystem, caseNumber: string, typedPath: string)
    returns (outputPath: string, logFile: string)
    modifies fs
    ensures outputPath == CleanOutputPath(typedPath)
    ensures logFile == Join(outputPath, LogName(caseNumber))
    ensures fs.files == Appended(old(fs.files), logFile, LogLine(Stamp(fs.clock, old(fs.ticks)), StartMessage))
    ensures fs.ticks == old(fs.ticks) + 1
  {
    outputPath := CleanOutputPath(typedPath);
    logFile := Join(outputPath, LogName(caseNumber));
    fs.WriteLog(logFile, StartMessage);
  }

  /** The files after lines 54-55 as written: the "Checking" line, then
      the listing run with the log itself as its output file. */
  function AfterListing(files: map<string, string>, logFile: string, listing: Output,
                        clock: nat -> string, tick: nat): map<string, string>
  {
    var checked := Appended(files, logFile, LogLine(Stamp(clock, tick), CheckingMessage));
    AfterRun(checked, logFile, logFile, listing, clock, tick + 1)
  }

  /** The files after lines 59-61: the failure line when no device is
      listed, nothing otherwise. */
  function AfterReport(files: map<string, string>, logFile: string, devices: seq<string>,
                       clock: nat -> string, tick: nat): map<string, string>
  {
    if devices == [] then Appended(files, logFile, LogLine(Stamp(clock, tick), FailureMessage(NoDevices)))
    else files
  }

  /** The files after lines 54-61 as written. */
  function AfterDetection(files: map<string, string>, logFile: string, listing: Output,
                          devices: seq<string>, clock: nat -> string, tick: nat): map<string, string>
  {
    AfterReport(AfterListing(files, logFile, listing, clock, tick), logFile, devices, clock, tick + 1 + RunTicks(listing))
  }

  /** Reporting the outcome of detection only appends to the log. */
  lemma ReportOnlyAppends(files: map<string, string>, logFile: string, devices: seq<string>,
                          clock: nat -> string, tick: nat)
    ensures IsPrefix(Content(files, logFile), Content(AfterReport(files, logFile, devices, clock, tick), logFile))
  {
    var failure := LogLine(Stamp(clock, tick), FailureMessage(NoDevices));
    ContentAppended(files, logFile, failure);
    PrefixOfConcat(Content(files, logFile), failure);
    assert devices != [] ==> AfterReport(files, logFile, devices, clock, tick) == files;
  }

  /** Lines 54-55: log the check, then run the listing with its output
      file set to the log itself. */
  method RunListing(fs: FileSystem, logFile: string, listing: Output) returns (result: Completed)
    modifies fs
    ensures result == Completed(ListCommand, listing.stdout, listing.stderr)
    ensures fs.files == AfterListing(old(fs.files), logFile, listing, fs.clock, old(fs.ticks))
    ensures fs.ticks == old(fs.ticks) + 1 + RunTicks(listing)
  {
    fs.WriteLog(logFile, CheckingMessage);
    result := fs.RunSubprocess(ListCommand, logFile, logFile, listing);
  }

  /** Lines 59-61: with no device, log the failure (to the file only) and
      exit with status 1; otherwise go on with the list. */
  method ReportDetection(fs: FileSystem, logFile: string, devices: seq<string>) returns (step: Step<seq<string>>)
    modifies fs
    ensures step == if devices == [] then Exit(FailureStatus) else Continue(devices)
    ensures fs.files == AfterReport(old(fs.files), logFile, devices, fs.clock, old(fs.ticks))
    ensures fs.ticks == old(fs.ticks) + (if devices == [] then 1 else 0)
  {
    if devices == [] {
      fs.LogError(logFile, FailureMessage(NoDevices));
      return Exit(FailureStatus);
    }
    return Continue(devices);
  }

  /** Lines 54-61: list the devices; with none, log the failure and exit
      with status 1. */
  method DetectDevices(fs: FileSystem, logFile: string, listing: Output)
    returns (step: Step<seq<string>>)
    modifies fs
    ensures var devices := ParseDevices(listing.stdout);
            step == if devices == [] then Exit(FailureStatus) else Continue(devices)
    ensures fs.files == AfterDetection(old(fs.files), logFile, listing, ParseDevices(listing.stdout), fs.clock, old(fs.ticks))
    ensures fs.ticks == old(fs.ticks) + 1 + RunTicks(listing) + (if ParseDevices(listing.stdout) == [] then 1 else 0)
  {
    var result := RunListing(fs, logFile, listing);
    var devices := ParseDevices(result.stdout);
    step := ReportDetection(fs, logFile, devices);
  }

  /** As written, a listing that prints anything replaces the session log:
      afterwards the log starts with the listing and holds only the lines
      logged after it, so "Logging started" and the "Checking" line are
      gone whenever the listing does not happen to begin with them. */
  lemma DetectionDiscardsEarlierLog(files: map<string, string>, logFile: string, listing: Output,
                                    devices: seq<string>, clock: nat -> string, tick: nat)
    requires listing.stdout != ""
    ensures var log := Content(AfterDetection(files, logFile, listing, devices, clock, tick), logFile);
            IsPrefix(listing.stdout, log)
    ensures var before := Content(files, logFile);
            var log := Content(AfterDetection(files, logFile, listing, devices, clock, tick), logFile);
            before != "" && listing.stdout[0] != before[0] ==> !IsPrefix(before, log)
  {
    var checked := Appended(files, logFile, LogLine(Stamp(clock, tick), CheckingMessage));
    RunOverwritesSharedLog(checked, logFile, listing, clock, tick + 1);
    var ran := AfterListing(files, logFile, listing, clock, tick);
    var tail := if listing.stderr != "" then LogLine(Stamp(clock, tick + 1), listing.stderr) else "";
    PrefixOfConcat(listing.stdout, tail);
    ReportOnlyAppends(ran, logFile, devices, clock, tick + 1 + RunTicks(listing));
    var log := Content(AfterDetection(files, logFile, listing, devices, clock, tick), logFile);
    PrefixOfPrefix(listing.stdout, Content(ran, logFile), log);
    assert log[0] == listing.stdout[0];
  }

  /** The files after lines 54-55 with the corrected policy: the listing is
      appended to the log. */
  function AfterListingKeepingLog(files: map<string, string>, logFile: string, listing: Output,
                                  clock: nat -> string, tick: nat): map<string, string>
  {
    var checked := Appended(files, logFile, LogLine(Stamp(clock, tick), CheckingMessage));
    AfterRunKeepingLog(checked, logFile, logFile, listing, clock, tick + 1)
  }

  /** The files after lines 54-61 with the corrected policy. */
  function AfterDetectionKeepingLog(files: map<string, string>, logFile: string, listing: Output,
                                    devices: seq<string>, clock: nat -> string, tick: nat): map<string, string>
  {
    AfterReport(AfterListingKeepingLog(files, logFile, listing, clock, tick), logFile, devices,
                clock, tick + 1 + RunTicks(listing))
  }

  /** With the corrected policy the session log keeps everything it held:
      detection only appends to it. */
  lemma DetectionKeepingLogAppends(files: map<string, string>, logFile: string, listing: Output,
                                   devices: seq<string>, clock: nat -> string, tick: nat)
    ensures IsPrefix(Content(files, logFile),
                     Content(AfterDetectionKeepingLog(files, logFile, listing, devices, clock, tick), logFile))
  {
    var line := LogLine(Stamp(clock, tick), CheckingMessage);
    var checked := Appended(files, logFile, line);
    ContentAppended(files, logFile, line);
    PrefixOfConcat(Content(files, logFile), line);
    KeepingLogOnlyAppends(checked, logFile, logFile, listing, clock, tick + 1);
    var ran := AfterListingKeepingLog(files, logFile, listing, clock, tick);
    PrefixOfPrefix(Content(files, logFile), Content(checked, logFile), Content(ran, logFile));
    ReportOnlyAppends(ran, logFile, devices, clock, tick + 1 + RunTicks(listing));
    var after := AfterDetectionKeepingLog(files, logFile, listing, devices, clock, tick);
    PrefixOfPrefix(Content(files, logFile), Content(ran, logFile), Content(after, logFile));
  }

  /** Lines 54-55 with the corrected policy. */
  method RunListingKeepingLog(fs: FileSystem, logFile: string, listing: Output) returns (result: Completed)
    modifies fs
    ensures result == Completed(ListCommand, listing.stdout, listing.stderr)
    ensures fs.files == AfterListingKeepingLog(old(fs.files), logFile, listing, fs.clock, old(fs.ticks))
    ensures fs.ticks == old(fs.ticks) + 1 + RunTicks(listing)
  {
    fs.WriteLog(logFile, CheckingMessage);
    result := fs.RunSubprocessKeepingLog(ListCommand, logFile, logFile, listing);
  }

  /** Lines 54-61 with the corrected policy. */
  method DetectDevicesKeepingLog(fs: FileSystem, logFile: string, listing: Output)
    returns (step: Step<seq<string>>)
    modifies fs
    ensures var devices := ParseDevices(listing.stdout);
            step == if devices == [] then Exit(FailureStatus) else Continue(devices)
    ensures fs.files == AfterDetectionKeepingLog(old(fs.files), logFile, listing, ParseDevices(listing.stdout), fs.clock, old(fs.ticks))
    ensures IsPrefix(Content(old(fs.files), logFile), Content(fs.files, logFile))
    ensures fs.ticks == old(fs.ticks) + 1 + RunTicks(listing) + (if ParseDevices(listing.stdout) == [] then 1 else 0)
  {
    ghost var tick, start := fs.ticks, fs.files;
    var result := RunListingKeepingLog(fs, logFile, listing);
    var devices := ParseDevices(result.stdout);
    DetectionKeepingLogAppends(start, logFile, listing, devices, fs.clock, tick);
    step := ReportDetection(fs, logFile, devices);
  }

  /** Python's `str(n)` for a natural number. */
  function Decimal(n: nat): string
    decreases n
  {
    var (rest, last) := DivMod10(n);
    var digit := [('0' as int + last) as char];
    if rest == 0 then digit else Decimal(rest) + digit
  }

  /** `n` as its decimal digits but the last, and the last one. */
  function DivMod10(n: nat): (qr: (nat, nat))
    ensures qr.1 < 10 && n == 10 * qr.0 + qr.1
  {
    if n < 10 then (0, n)
    else
      var (q, r) := DivMod10(n - 10);
      (q + 1, r)
  }

  /** `Decimal` writes a non-empty run of decimal digits. */
  lemma {:induction false} DecimalDigits(n: nat)
    ensures var s := Decimal(n); s != [] && forall k :: 0 <= k < |s| ==> '0' <= s[k] <= '9'
    decreases n
  {
    var (rest, _) := DivMod10(n);
    if rest != 0 {
      DecimalDigits(rest);
    }
  }

  /** The number a run of decimal digits denotes, read most significant
      digit first. */
  function DigitsValue(s: string): nat {
    if s == [] then 0
    else
      var d := s[|s| - 1] as int - '0' as int;
      10 * DigitsValue(s[..|s| - 1]) + (if 0 <= d then d else 0)
  }

  /** `Decimal` writes `n` itself: its digits denote `n`, and only zero
      is written with a leading '0'. */
  lemma {:induction false} DecimalValue(n: nat)
    ensures DigitsValue(Decimal(n)) == n
    ensures Decimal(n)[0] == '0' <==> n == 0
    decreases n
  {
    var (rest, last) := DivMod10(n);
    var digit := [('0' as int + last) as char];
    if rest != 0 {
      DecimalValue(rest);
      var s := Decimal(n);
      assert s == Decimal(rest) + digit;
      assert s[..|s| - 1] == Decimal(rest);
      DecimalDigits(rest);
      assert s[0] == Decimal(rest)[0];
    }
  }

  /** Two menu numbers are written alike only if they are the same
      number. */
  lemma DecimalInjective(m: nat, n: nat)
    requires Decimal(m) == Decimal(n)
    ensures m == n
  {
    DecimalValue(m);
    DecimalValue(n);
  }

  /** The menu line for the device at 1-based position `index`. */
  function MenuEntry(index: nat, device: string): string {
    Decimal(index) + ") " + device
  }

  /** The menu lines for the first `n` devices, the i-th (from 0) taking
      the clock reading `tick + i`. */
  function Menu(devices: seq<string>, clock: nat -> string, tick: nat, n: nat): string
    requires n <= |devices|
  {
    if n == 0 then ""
    else Menu(devices, clock, tick, n - 1) + LogLine(Stamp(clock, tick + n - 1), MenuEntry(n, devices[n - 1]))
  }

  /** The line that closes the selection step: the chosen device, or why
      the script gives up. */
  function Outcome(devices: seq<string>, choice: int): string {
    match Select(devices, choice)
    case Selected(d) => SelectedPrefix + d
    case Rejected(f) => FailureMessage(f)
  }

  /** Everything lines 63-74 append to the log. */
  function SelectionLog(devices: seq<string>, choice: int, clock: nat -> string, tick: nat): string {
    ShownMenu(devices, clock, tick) + LogLine(Stamp(clock, ChoiceTick(tick, devices)), Outcome(devices, choice))
  }

  /** What lines 64-66 append: the "Connected Devices:" line, then the menu. */
  function ShownMenu(devices: seq<string>, clock: nat -> string, tick: nat): string {
    LogLine(Stamp(clock, tick), ListedMessage) + Menu(devices, clock, tick + 1, |devices|)
  }

  /** The menu written head first: the line for the first of `devices`,
      numbered `number` with reading `tick`, then the lines for the rest. */
  function MenuLines(devices: seq<string>, number: nat, clock: nat -> string, tick: nat): string
    decreases |devices|
  {
    if devices == [] then ""
    else LogLine(Stamp(clock, tick), MenuEntry(number, devices[0])) + MenuLines(devices[1..], number + 1, clock, tick + 1)
  }

  /** The menu the loop builds is the head-first menu: one line per
      device, in list order, the first numbered 1 and each one more than
      the one before, each taking the next clock reading. */
  lemma MenuInListOrder(devices: seq<string>, clock: nat -> string, tick: nat)
    ensures Menu(devices, clock, tick, |devices|) == MenuLines(devices, 1, clock, tick)
  {
    MenuSplit(devices, clock, tick, |devices|);
    assert devices[|devices|..] == [];
    assert Menu(devices, clock, tick, |devices|) + "" == Menu(devices, clock, tick, |devices|);
  }

  /** The lines for the first `n` devices followed by the head-first
      lines for the rest are the head-first menu of all of them. */
  lemma {:induction false} MenuSplit(devices: seq<string>, clock: nat -> string, tick: nat, n: nat)
    requires n <= |devices|
    ensures Menu(devices, clock, tick, n) + MenuLines(devices[n..], n + 1, clock, tick + n)
         == MenuLines(devices, 1, clock, tick)
    decreases n
  {
    if n == 0 {
      assert devices[0..] == devices;
    } else {
      MenuSplit(devices, clock, tick, n - 1);
      var line := LogLine(Stamp(clock, tick + n - 1), MenuEntry(n, devices[n - 1]));
      var rest := MenuLines(devices[n..], n + 1, clock, tick + n);
      var tail := devices[n - 1..];
      assert tail != [] && tail[0] == devices[n - 1] && tail[1..] == devices[n..];
      calc {
        Menu(devices, clock, tick, n) + rest;
        (Menu(devices, clock, tick, n - 1) + line) + rest;
        Menu(devices, clock, tick, n - 1) + (line + rest);
        Menu(devices, clock, tick, n - 1) + MenuLines(tail, n, clock, tick + (n - 1));
      }
    }
  }

  /** The menu for `i + 1` devices is the menu for `i` and one more line. */
  lemma MenuGrows(devices: seq<string>, clock: nat -> string, tick: nat, i: nat)
    requires i < |devices|
    ensures Menu(devices, clock, tick, i + 1)
         == Menu(devices, clock, tick, i) + LogLine(Stamp(clock, tick + i), MenuEntry(i + 1, devices[i]))
  {
  }

  /** Lines 64-65: one numbered line per device, in list order. The log
      exists already (the "Connected Devices:" line was just written). */
  method WriteMenu(fs: FileSystem, logFile: string, devices: seq<string>)
    requires logFile in fs.files
    modifies fs
    ensures fs.files == Appended(old(fs.files), logFile, Menu(devices, fs.clock, old(fs.ticks), |devices|))
    ensures fs.ticks == old(fs.ticks) + |devices|
  {
    ghost var tick, start := fs.ticks, fs.files;
    assert start[logFile] + "" == start[logFile];
    assert start == Appended(start, logFile, "");
    var i := 0;
    while i < |devices|
      invariant 0 <= i <= |devices|
      invariant fs.ticks == tick + i
      invariant fs.files == Appended(start, logFile, Menu(devices, fs.clock, tick, i))
    {
      ghost var shown := Menu(devices, fs.clock, tick, i);
      ghost var entry := LogLine(Stamp(fs.clock, tick + i), MenuEntry(i + 1, devices[i]));
      fs.WriteLog(logFile, MenuEntry(i + 1, devices[i]));
      MenuGrows(devices, fs.clock, tick, i);
      AppendedTwice(start, logFile, shown, entry);
      i := i + 1;
    }
  }

  /** Lines 64-66: the "Connected Devices:" line, then the menu. */
  method ShowMenu(fs: FileSystem, logFile: string, devices: seq<string>)
    modifies fs
    ensures fs.files == Appended(old(fs.files), logFile, ShownMenu(devices, fs.clock, old(fs.ticks)))
    ensures fs.ticks == ChoiceTick(old(fs.ticks), devices)
  {
    ghost var tick, start := fs.ticks, fs.files;
    fs.WriteLog(logFile, ListedMessage);
    ghost var menuTick := fs.ticks;
    WriteMenu(fs, logFile, devices);
    AppendedTwice(start, logFile, LogLine(Stamp(fs.clock, tick), ListedMessage), Menu(devices, fs.clock, menuTick, |devices|));
  }

  /** Lines 68-74: accept the operator's choice only when it names a
      listed device; otherwise log the failure (to the file only) and exit
      with status 1. */
  method Confirm(fs: FileSystem, logFile: string, devices: seq<string>, choice: int)
    returns (step: Step<string>)
    requires devices != []
    modifies fs
    ensures step == if 1 <= choice <= |devices| then Continue(devices[choice - 1]) else Exit(FailureStatus)
    ensures fs.files == Appended(old(fs.files), logFile, LogLine(Stamp(fs.clock, old(fs.ticks)), Outcome(devices, choice)))
    ensures fs.ticks == old(fs.ticks) + 1
  {
    var index := choice - 1;
    if index < 0 || index >= |devices| {
      assert Outcome(devices, choice) == FailureMessage(InvalidSelection);
      fs.LogError(logFile, FailureMessage(InvalidSelection));
      step := Exit(FailureStatus);
    } else {
      assert Outcome(devices, choice) == SelectedPrefix + devices[index];
      fs.WriteLog(logFile, SelectedPrefix + devices[index]);
      step := Continue(devices[index]);
    }
  }

  /** Lines 63-74: log the numbered menu, then accept or reject the
      operator's choice. (Reached only with at least one device.) */
  method SelectDevice(fs: FileSystem, logFile: string, devices: seq<string>, choice: int)
    returns (step: Step<string>)
    requires devices != []
    modifies fs
    ensures step == if 1 <= choice <= |devices| then Continue(devices[choice - 1]) else Exit(FailureStatus)
    ensures fs.files == Appended(old(fs.files), logFile, SelectionLog(devices, choice, fs.clock, old(fs.ticks)))
    ensures fs.ticks == old(fs.ticks) + |devices| + 2
  {
    ghost var tick, start := fs.ticks, fs.files;
    ghost var clock := fs.clock;
    SelectionAppended(start, logFile, devices, choice, clock, tick);
    ghost var line := LogLine(Stamp(clock, ChoiceTick(tick, devices)), Outcome(devices, choice));
    ghost var shown := Appended(start, logFile, ShownMenu(devices, clock, tick));
    ShowMenu(fs, logFile, devices);
    assert fs.files == shown;
    step := Confirm(fs, logFile, devices, choice);
    assert fs.files == Appended(shown, logFile, line);
  }

  /** The menu and then the outcome line, appended one after the other,
      are the selection log appended at once. */
  lemma SelectionAppended(files: map<string, string>, logFile: string, devices: seq<string>, choice: int,
                          clock: nat -> string, tick: nat)
    ensures Appended(Appended(files, logFile, ShownMenu(devices, clock, tick)), logFile,
                     LogLine(Stamp(clock, ChoiceTick(tick, devices)), Outcome(devices, choice)))
         == Appended(files, logFile, SelectionLog(devices, choice, clock, tick))
  {
    AppendedTwice(files, logFile, ShownMenu(devices, clock, tick),
                  LogLine(Stamp(clock, ChoiceTick(tick, devices)), Outcome(devices, choice)));
  }

  /** The files after one capture: announce it, run the command into its
      file, then log where the output went. */
  function AfterCapture(files: map<string, string>, logFile: string, outputFile: string,
                        announce: string, saved: string, out: Output,
                        clock: nat -> string, tick: nat): map<string, string>
  {
    var announced := Appended(files, logFile, LogLine(Stamp(clock, tick), announce));
    var ran := AfterRun(announced, outputFile, logFile, out, clock, tick + 1);
    Appended(ran, logFile, LogLine(Stamp(clock, tick + 1 + RunTicks(out)), saved + outputFile))
  }

  /** One capture (lines 77-80 or 83-86). */
  method Capture(fs: FileSystem, logFile: string, outputFile: string, command: seq<string>,
                 announce: string, saved: string, out: Output)
    returns (result: Completed)
    modifies fs
    ensures result == Completed(command, out.stdout, out.stderr)
    ensures fs.files == AfterCapture(old(fs.files), logFile, outputFile, announce, saved, out, fs.clock, old(fs.ticks))
    ensures fs.ticks == old(fs.ticks) + 2 + RunTicks(out)
  {
    fs.WriteLog(logFile, announce);
    result := fs.RunSubprocess(command, outputFile, logFile, out);
    fs.WriteLog(logFile, saved + outputFile);
  }

  /** Lines 77-80: dump logcat into its own file. */
  method CaptureLogcat(fs: FileSystem, outputPath: string, caseNumber: string, device: string,
                       logFile: string, out: Output)
    returns (logcatFile: string, result: Completed)
    modifies fs
    ensures logcatFile == Join(outputPath, LogcatName(caseNumber, device))
    ensures result == Completed(LogcatCommand(device), out.stdout, out.stderr)
    ensures fs.files == AfterCapture(old(fs.files), logFile, logcatFile, LogcatAnnounce,
                                     LogcatSaved, out, fs.clock, old(fs.ticks))
    ensures fs.ticks == old(fs.ticks) + 2 + RunTicks(out)
  {
    logcatFile := Join(outputPath, LogcatName(caseNumber, device));
    result := Capture(fs, logFile, logcatFile, LogcatCommand(device), LogcatAnnounce, LogcatSaved, out);
  }

  /** Lines 83-86: dump every system service into its own file. */
  method CaptureDumpsys(fs: FileSystem, outputPath: string, caseNumber: string, device: string,
                        logFile: string, out: Output)
    returns (dumpsysFile: string, result: Completed)
    modifies fs
    ensures dumpsysFile == Join(outputPath, DumpsysName(caseNumber, device))
    ensures result == Completed(DumpsysCommand(device), out.stdout, out.stderr)
    ensures fs.files == AfterCapture(old(fs.files), logFile, dumpsysFile, DumpsysAnnounce,
                                     DumpsysSaved, out, fs.clock, old(fs.ticks))
    ensures fs.ticks == old(fs.ticks) + 2 + RunTicks(out)
  {
    dumpsysFile := Join(outputPath, DumpsysName(caseNumber, device));
    result := Capture(fs, logFile, dumpsysFile, DumpsysCommand(device), DumpsysAnnounce, DumpsysSaved, out);
  }

  /** A capture into the run's logcat or dumpsys file never touches what
      the session log already holds, and a capture that printed something
      leaves exactly that in its file. */
  lemma CaptureKeepsLog(files: map<string, string>, outputPath: string, caseNumber: string, device: string,
                        dumpsys: bool, announce: string, saved: string, out: Output,
                        clock: nat -> string, tick: nat)
    ensures var logFile := Join(outputPath, LogName(caseNumber));
            var outputFile := Join(outputPath, if dumpsys then DumpsysName(caseNumber, device)
                                                else LogcatName(caseNumber, device));
            var after := AfterCapture(files, logFile, outputFile, announce, saved, out, clock, tick);
            IsPrefix(Content(files, logFile), Content(after, logFile))
            && (out.stdout != "" ==> Content(after, outputFile) == out.stdout)
  {
    var logFile := Join(outputPath, LogName(caseNumber));
    var outputFile := Join(outputPath, if dumpsys then DumpsysName(caseNumber, device)
                                       else LogcatName(caseNumber, device));
    ArtifactPathsDistinct(outputPath, caseNumber, device);
    CaptureOwnFile(files, logFile, outputFile, announce, saved, out, clock, tick);
  }

  /** `CaptureKeepsLog` for any output file other than the log; a capture
      that printed nothing leaves its file exactly as it was. */
  lemma CaptureOwnFile(files: map<string, string>, logFile: string, outputFile: string,
                       announce: string, saved: string, out: Output, clock: nat -> string, tick: nat)
    requires outputFile != logFile
    ensures var after := AfterCapture(files, logFile, outputFile, announce, saved, out, clock, tick);
            IsPrefix(Content(files, logFile), Content(after, logFile))
            && (out.stdout != "" ==> outputFile in after && after[outputFile] == out.stdout)
            && (out.stdout == "" ==> SameFile(files, after, outputFile))
  {
    var line := LogLine(Stamp(clock, tick), announce);
    var announced := Appended(files, logFile, line);
    AppendedGrows(files, logFile, line);
    RunKeepsLogOtherwise(announced, outputFile, logFile, out, clock, tick + 1);
    var ran := AfterRun(announced, outputFile, logFile, out, clock, tick + 1);
    PrefixOfConcat(Content(announced, logFile), RunLog(out, clock, tick + 1));
    PrefixOfPrefix(Content(files, logFile), Content(announced, logFile), Content(ran, logFile));
    var savedLine := LogLine(Stamp(clock, tick + 1 + RunTicks(out)), saved + outputFile);
    var after := Appended(ran, logFile, savedLine);
    AppendedGrows(ran, logFile, savedLine);
    PrefixOfPrefix(Content(files, logFile), Content(ran, logFile), Content(after, logFile));
    if out.stdout != "" {
      RunStoresStdout(announced, outputFile, logFile, out, clock, tick + 1);
    } else {
      RunReportsNoOutput(announced, outputFile, logFile, out, clock, tick + 1);
    }
  }

  /** A capture changes no file but the session log and its own output file. */
  lemma CaptureLeavesOthers(files: map<string, string>, logFile: string, outputFile: string,
                            announce: string, saved: string, out: Output,
                            clock: nat -> string, tick: nat, other: string)
    requires other != logFile && other != outputFile
    ensures SameFile(files, AfterCapture(files, logFile, outputFile, announce, saved, out, clock, tick), other)
  {
    var announced := Appended(files, logFile, LogLine(Stamp(clock, tick), announce));
    RunTouchesOnlyItsFiles(announced, outputFile, logFile, out, clock, tick + 1, other);
  }

  /** Detection, whatever the listing printed, changes no file but the log. */
  lemma DetectionLeavesOthers(files: map<string, string>, logFile: string, listing: Output,
                              devices: seq<string>, clock: nat -> string, tick: nat, other: string)
    requires other != logFile
    ensures SameFile(files, AfterDetection(files, logFile, listing, devices, clock, tick), other)
  {
    var checked := Appended(files, logFile, LogLine(Stamp(clock, tick), CheckingMessage));
    RunTouchesOnlyItsFiles(checked, logFile, logFile, listing, clock, tick + 1, other);
  }

  /** The files after lines 45-74, the log being `logFile` and `devices`
      the devices the listing offers: "Logging started", detection, and
      (when a device is listed) the menu and the outcome of the choice. */
  function AfterPrepare(files: map<string, string>, logFile: string, listing: Output, devices: seq<string>,
                        choice: int, clock: nat -> string, tick: nat): map<string, string>
  {
    var detected := Detected(files, logFile, listing, devices, clock, tick);
    if devices == [] then detected
    else Appended(detected, logFile, SelectionLog(devices, choice, clock, ReportTick(tick, listing)))
  }

  /** The files after lines 45-61: "Logging started", then detection. */
  function Detected(files: map<string, string>, logFile: string, listing: Output, devices: seq<string>,
                    clock: nat -> string, tick: nat): map<string, string>
  {
    var started := Appended(files, logFile, LogLine(Stamp(clock, tick), StartMessage));
    AfterDetection(started, logFile, listing, devices, clock, tick + 1)
  }

  /** The clock reading of the line that reports what detection found:
      "Connected Devices:" or the failure line. */
  function ReportTick(tick: nat, listing: Output): nat {
    tick + 2 + RunTicks(listing)
  }

  /** The clock reading of the outcome line of the selection that starts
      at `tick`. */
  function ChoiceTick(tick: nat, devices: seq<string>): nat {
    tick + 1 + |devices|
  }

  /** The clock reading after lines 45-74 when they start at `tick`:
      one reading per line they log. */
  function TickAfterPrepare(tick: nat, listing: Output, devices: seq<string>): nat {
    OutcomeTick(tick, listing, devices) + 1
  }

  /** The clock reading of the last line lines 45-74 log, the outcome of
      detection and selection. */
  function OutcomeTick(tick: nat, listing: Output, devices: seq<string>): nat {
    if devices == [] then ReportTick(tick, listing) else ChoiceTick(ReportTick(tick, listing), devices)
  }

  /** Lines 45-74 change no file but the log. */
  lemma PrepareLeavesOthers(files: map<string, string>, logFile: string, listing: Output, devices: seq<string>, choice: int,
                            clock: nat -> string, tick: nat)
    ensures forall other :: other != logFile ==>
              SameFile(files, AfterPrepare(files, logFile, listing, devices, choice, clock, tick), other)
  {
    var started := Appended(files, logFile, LogLine(Stamp(clock, tick), StartMessage));
    forall other | other != logFile
      ensures SameFile(files, AfterPrepare(files, logFile, listing, devices, choice, clock, tick), other)
    {
      DetectionLeavesOthers(started, logFile, listing, devices, clock, tick + 1, other);
    }
  }

  /** The session log after lines 45-74. As written, a listing that
      printed anything replaces the log, which then starts with the
      listing; a listing that printed nothing keeps the log's earlier
      text. Either way the last line is the outcome: "No Android devices
      detected!", "Invalid selection. Exiting." or "Selected Device: "
      and the chosen id. */
  lemma PrepareLog(files: map<string, string>, logFile: string, listing: Output, devices: seq<string>, choice: int,
                   clock: nat -> string, tick: nat)
    ensures var log := Content(AfterPrepare(files, logFile, listing, devices, choice, clock, tick), logFile);
            && (listing.stdout != "" ==> IsPrefix(listing.stdout, log))
            && (listing.stdout == "" ==> IsPrefix(Content(files, logFile), log))
            && IsSuffix(LogLine(Stamp(clock, OutcomeTick(tick, listing, devices)), Outcome(devices, choice)), log)
  {
    PrepareLogHead(files, logFile, listing, devices, choice, clock, tick);
    PrepareLogEnd(files, logFile, listing, devices, choice, clock, tick);
  }

  /** The head of the session log after lines 45-74. */
  lemma PrepareLogHead(files: map<string, string>, logFile: string, listing: Output, devices: seq<string>, choice: int,
                       clock: nat -> string, tick: nat)
    ensures var log := Content(AfterPrepare(files, logFile, listing, devices, choice, clock, tick), logFile);
            && (listing.stdout != "" ==> IsPrefix(listing.stdout, log))
            && (listing.stdout == "" ==> IsPrefix(Content(files, logFile), log))
  {
    var detected := Detected(files, logFile, listing, devices, clock, tick);
    var head := if listing.stdout != "" then listing.stdout else Content(files, logFile);
    StartedLog(files, logFile, listing, devices, clock, tick);
    if devices != [] {
      AppendedKeeps(detected, logFile, SelectionLog(devices, choice, clock, ReportTick(tick, listing)), head, "");
    }
  }

  /** The last line of the session log after lines 45-74. */
  lemma PrepareLogEnd(files: map<string, string>, logFile: string, listing: Output, devices: seq<string>, choice: int,
                      clock: nat -> string, tick: nat)
    ensures IsSuffix(LogLine(Stamp(clock, OutcomeTick(tick, listing, devices)), Outcome(devices, choice)),
                     Content(AfterPrepare(files, logFile, listing, devices, choice, clock, tick), logFile))
  {
    if devices == [] {
      UnlistedLogEnd(files, logFile, listing, devices, choice, clock, tick);
    } else {
      ListedLogEnd(files, logFile, listing, devices, choice, clock, tick);
    }
  }

  /** With no device listed the log ends with the failure line of detection. */
  lemma UnlistedLogEnd(files: map<string, string>, logFile: string, listing: Output, devices: seq<string>, choice: int,
                       clock: nat -> string, tick: nat)
    requires devices == []
    ensures IsSuffix(LogLine(Stamp(clock, OutcomeTick(tick, listing, devices)), Outcome(devices, choice)),
                     Content(AfterPrepare(files, logFile, listing, devices, choice, clock, tick), logFile))
  {
    StartedLog(files, logFile, listing, devices, clock, tick);
    assert Outcome(devices, choice) == FailureMessage(NoDevices);
  }

  /** With a device listed the log ends with the outcome of the choice. */
  lemma ListedLogEnd(files: map<string, string>, logFile: string, listing: Output, devices: seq<string>, choice: int,
                     clock: nat -> string, tick: nat)
    requires devices != []
    ensures IsSuffix(LogLine(Stamp(clock, OutcomeTick(tick, listing, devices)), Outcome(devices, choice)),
                     Content(AfterPrepare(files, logFile, listing, devices, choice, clock, tick), logFile))
  {
    var detected := Detected(files, logFile, listing, devices, clock, tick);
    SelectionKeepsHead(detected, logFile, devices, choice, clock, ReportTick(tick, listing), "");
  }

  /** Appending the selection log keeps the head of the log and ends it
      with the outcome line. */
  lemma SelectionKeepsHead(files: map<string, string>, logFile: string, devices: seq<string>, choice: int,
                          clock: nat -> string, tick: nat, head: string)
    requires IsPrefix(head, Content(files, logFile))
    ensures var log := Content(Appended(files, logFile, SelectionLog(devices, choice, clock, tick)), logFile);
            IsPrefix(head, log)
            && IsSuffix(LogLine(Stamp(clock, ChoiceTick(tick, devices)), Outcome(devices, choice)), log)
  {
    SelectionEnds(devices, choice, clock, tick);
    AppendedKeeps(files, logFile, SelectionLog(devices, choice, clock, tick), head,
                  LogLine(Stamp(clock, ChoiceTick(tick, devices)), Outcome(devices, choice)));
  }

  /** The selection log ends with the outcome line. */
  lemma SelectionEnds(devices: seq<string>, choice: int, clock: nat -> string, tick: nat)
    ensures IsSuffix(LogLine(Stamp(clock, ChoiceTick(tick, devices)), Outcome(devices, choice)),
                     SelectionLog(devices, choice, clock, tick))
  {
    SuffixOfConcat(ShownMenu(devices, clock, tick), LogLine(Stamp(clock, ChoiceTick(tick, devices)), Outcome(devices, choice)));
  }

  /** The log after "Logging started" and detection. */
  lemma StartedLog(files: map<string, string>, logFile: string, listing: Output, devices: seq<string>,
                   clock: nat -> string, tick: nat)
    ensures var log := Content(Detected(files, logFile, listing, devices, clock, tick), logFile);
            && (listing.stdout != "" ==> IsPrefix(listing.stdout, log))
            && (listing.stdout == "" ==> IsPrefix(Content(files, logFile), log))
            && (devices == [] ==> IsSuffix(LogLine(Stamp(clock, ReportTick(tick, listing)), FailureMessage(NoDevices)), log))
  {
    var started := Appended(files, logFile, LogLine(Stamp(clock, tick), StartMessage));
    DetectedLog(started, logFile, listing, devices, clock, tick + 1);
    AppendedGrows(files, logFile, LogLine(Stamp(clock, tick), StartMessage));
    if listing.stdout == "" {
      PrefixOfPrefix(Content(files, logFile), Content(started, logFile),
                     Content(AfterDetection(started, logFile, listing, devices, clock, tick + 1), logFile));
    }
  }

  /** The log after detection: it starts with a non-empty listing, keeps
      its earlier text when the listing is empty, and ends with the
      failure line when no device is listed. */
  lemma DetectedLog(files: map<string, string>, logFile: string, listing: Output, devices: seq<string>,
                    clock: nat -> string, tick: nat)
    ensures var log := Content(AfterDetection(files, logFile, listing, devices, clock, tick), logFile);
            && (listing.stdout != "" ==> IsPrefix(listing.stdout, log))
            && (listing.stdout == "" ==> IsPrefix(Content(files, logFile), log))
            && (devices == [] ==> IsSuffix(LogLine(Stamp(clock, tick + 1 + RunTicks(listing)), FailureMessage(NoDevices)), log))
  {
    var line := LogLine(Stamp(clock, tick), CheckingMessage);
    var checked := Appended(files, logFile, line);
    var ran := AfterListing(files, logFile, listing, clock, tick);
    if listing.stdout != "" {
      DetectionDiscardsEarlierLog(files, logFile, listing, devices, clock, tick);
    } else {
      AppendedGrows(files, logFile, line);
      RunKeepsLogOtherwise(checked, logFile, logFile, listing, clock, tick + 1);
      PrefixOfConcat(Content(checked, logFile), RunLog(listing, clock, tick + 1));
      PrefixOfPrefix(Content(files, logFile), Content(checked, logFile), Content(ran, logFile));
      ReportOnlyAppends(ran, logFile, devices, clock, tick + 1 + RunTicks(listing));
      PrefixOfPrefix(Content(files, logFile), Content(ran, logFile),
                     Content(AfterDetection(files, logFile, listing, devices, clock, tick), logFile));
    }
    if devices == [] {
      AppendedGrows(ran, logFile, LogLine(Stamp(clock, tick + 1 + RunTicks(listing)), FailureMessage(NoDevices)));
    }
  }

  /** Lines 45-74: open the log, detect the devices and take the
      operator's choice. The script stops with status 1 exactly when no
      device is listed or the choice names none of them; the only file
      written is the session log. */
  method Prepare(fs: FileSystem, caseNumber: string, typedPath: string, listing: Output, choice: int)
    returns (outputPath: string, logFile: string, step: Step<string>)
    modifies fs
    ensures outputPath == CleanOutputPath(typedPath) && logFile == Join(outputPath, LogName(caseNumber))
    ensures var devices := ParseDevices(listing.stdout);
            step == if devices != [] && 1 <= choice <= |devices| then Continue(devices[choice - 1])
                    else Exit(FailureStatus)
    ensures fs.files == AfterPrepare(old(fs.files), logFile, listing, ParseDevices(listing.stdout), choice,
                                     fs.clock, old(fs.ticks))
    ensures fs.ticks == TickAfterPrepare(old(fs.ticks), listing, ParseDevices(listing.stdout))
    ensures forall p :: p != logFile ==> SameFile(old(fs.files), fs.files, p)
  {
    ghost var initial, tick := fs.files, fs.ticks;
    outputPath, logFile := Start(fs, caseNumber, typedPath);
    var detected := DetectDevices(fs, logFile, listing);
    if detected.Exit? {
      step := Exit(detected.status);
    } else {
      step := SelectDevice(fs, logFile, detected.value, choice);
    }
    PrepareLeavesOthers(initial, logFile, listing, ParseDevices(listing.stdout), choice, fs.clock, tick);
  }

  /** The files after lines 77-86: the logcat capture into `logcatFile`,
      then the dumpsys capture into `dumpsysFile`. */
  function AfterCaptures(files: map<string, string>, logFile: string, logcatFile: string, dumpsysFile: string,
                         logcat: Output, dumpsys: Output, clock: nat -> string, tick: nat): map<string, string>
  {
    var first := AfterCapture(files, logFile, logcatFile, LogcatAnnounce, LogcatSaved, logcat, clock, tick);
    AfterCapture(first, logFile, dumpsysFile, DumpsysAnnounce, DumpsysSaved, dumpsys, clock, tick + 2 + RunTicks(logcat))
  }

  /** After both captures into two files other than the log, each capture
      file holds exactly what its command printed, or is as it was before
      when the command printed nothing; the log keeps its earlier text. */
  lemma CapturesOutcome(files: map<string, string>, logFile: string, logcatFile: string, dumpsysFile: string,
                        logcat: Output, dumpsys: Output, clock: nat -> string, tick: nat)
    requires logcatFile != logFile && dumpsysFile != logFile && logcatFile != dumpsysFile
    ensures var after := AfterCaptures(files, logFile, logcatFile, dumpsysFile, logcat, dumpsys, clock, tick);
            && (logcat.stdout != "" ==> logcatFile in after && after[logcatFile] == logcat.stdout)
            && (logcat.stdout == "" ==> SameFile(files, after, logcatFile))
            && (dumpsys.stdout != "" ==> dumpsysFile in after && after[dumpsysFile] == dumpsys.stdout)
            && (dumpsys.stdout == "" ==> SameFile(files, after, dumpsysFile))
    ensures IsPrefix(Content(files, logFile),
                     Content(AfterCaptures(files, logFile, logcatFile, dumpsysFile, logcat, dumpsys, clock, tick), logFile))
  {
    var first := AfterCapture(files, logFile, logcatFile, LogcatAnnounce, LogcatSaved, logcat, clock, tick);
    var after := AfterCapture(first, logFile, dumpsysFile, DumpsysAnnounce, DumpsysSaved, dumpsys, clock, tick + 2 + RunTicks(logcat));
    CaptureOwnFile(files, logFile, logcatFile, LogcatAnnounce, LogcatSaved, logcat, clock, tick);
    CaptureOwnFile(first, logFile, dumpsysFile, DumpsysAnnounce, DumpsysSaved, dumpsys, clock, tick + 2 + RunTicks(logcat));
    CaptureLeavesOthers(files, logFile, logcatFile, LogcatAnnounce, LogcatSaved, logcat, clock, tick, dumpsysFile);
    CaptureLeavesOthers(first, logFile, dumpsysFile, DumpsysAnnounce, DumpsysSaved, dumpsys, clock, tick + 2 + RunTicks(logcat), logcatFile);
    PrefixOfPrefix(Content(files, logFile), Content(first, logFile), Content(after, logFile));
  }

  /** Both captures change no file but the log and the two capture files. */
  lemma CapturesLeaveOthers(files: map<string, string>, logFile: string, logcatFile: string, dumpsysFile: string,
                            logcat: Output, dumpsys: Output, clock: nat -> string, tick: nat, other: string)
    requires other != logFile && other != logcatFile && other != dumpsysFile
    ensures SameFile(files, AfterCaptures(files, logFile, logcatFile, dumpsysFile, logcat, dumpsys, clock, tick), other)
  {
    var first := AfterCapture(files, logFile, logcatFile, LogcatAnnounce, LogcatSaved, logcat, clock, tick);
    CaptureLeavesOthers(files, logFile, logcatFile, LogcatAnnounce, LogcatSaved, logcat, clock, tick, other);
    CaptureLeavesOthers(first, logFile, dumpsysFile, DumpsysAnnounce, DumpsysSaved, dumpsys, clock, tick + 2 + RunTicks(logcat), other);
  }

  /** Lines 77-86: both captures, one after the other. */
  method CaptureBoth(fs: FileSystem, outputPath: string, caseNumber: string, device: string,
                     logcat: Output, dumpsys: Output)
    returns (logcatFile: string, dumpsysFile: string)
    modifies fs
    ensures logcatFile == Join(outputPath, LogcatName(caseNumber, device))
    ensures dumpsysFile == Join(outputPath, DumpsysName(caseNumber, device))
    ensures fs.files == AfterCaptures(old(fs.files), Join(outputPath, LogName(caseNumber)), logcatFile, dumpsysFile,
                                      logcat, dumpsys, fs.clock, old(fs.ticks))
    ensures fs.ticks == old(fs.ticks) + 4 + RunTicks(logcat) + RunTicks(dumpsys)
  {
    var logFile := Join(outputPath, LogName(caseNumber));
    ghost var start, tick := fs.files, fs.ticks;
    var logcatRun, dumpsysRun;
    logcatFile, logcatRun := CaptureLogcat(fs, outputPath, caseNumber, device, logFile, logcat);
    ghost var first := fs.files;
    dumpsysFile, dumpsysRun := CaptureDumpsys(fs, outputPath, caseNumber, device, logFile, dumpsys);
    CapturesInOrder(start, first, fs.files, logFile, logcatFile, dumpsysFile, logcat, dumpsys, fs.clock, tick);
  }

  /** The two captures one after the other are `AfterCaptures`. */
  lemma CapturesInOrder(files: map<string, string>, first: map<string, string>, last: map<string, string>,
                        logFile: string, logcatFile: string, dumpsysFile: string, logcat: Output, dumpsys: Output,
                        clock: nat -> string, tick: nat)
    requires first == AfterCapture(files, logFile, logcatFile, LogcatAnnounce, LogcatSaved, logcat, clock, tick)
    requires last == AfterCapture(first, logFile, dumpsysFile, DumpsysAnnounce, DumpsysSaved, dumpsys, clock,
                                  tick + 2 + RunTicks(logcat))
    ensures last == AfterCaptures(files, logFile, logcatFile, dumpsysFile, logcat, dumpsys, clock, tick)
  {
  }

  /** Lines 45-86 end to end, with what the operator types and what each
      command prints as parameters; the output directory and the session
      log it settles on are returned for the rest of the script. Either
      the script stops with status 1, having written nothing but the
      session log, whose last line says why; or it returns the selected
      device's two capture files, each holding what its command printed,
      or left as it was when the command printed nothing, and no other
      file but the log has changed. A listing that printed anything leaves
      the log starting with that listing: the lines logged before it are
      gone. */
  method Collect(fs: FileSystem, caseNumber: string, typedPath: string, listing: Output, choice: int,
                 logcat: Output, dumpsys: Output)
    returns (outputPath: string, logFile: string, step: Step<(string, string)>)
    modifies fs
    ensures outputPath == CleanOutputPath(typedPath) && logFile == Join(outputPath, LogName(caseNumber))
    ensures var devices := ParseDevices(listing.stdout);
            step.Exit? <==> devices == [] || !(1 <= choice <= |devices|)
    ensures step.Exit? ==> step.status == FailureStatus
    ensures step.Exit? ==>
              fs.files == AfterPrepare(old(fs.files), logFile, listing, ParseDevices(listing.stdout), choice,
                                       fs.clock, old(fs.ticks))
    ensures step.Continue? ==>
              fs.files == AfterCaptures(AfterPrepare(old(fs.files), logFile, listing, ParseDevices(listing.stdout),
                                                     choice, fs.clock, old(fs.ticks)),
                                        logFile, step.value.0, step.value.1, logcat, dumpsys, fs.clock,
                                        TickAfterPrepare(old(fs.ticks), listing, ParseDevices(listing.stdout)))
    ensures step.Exit? ==> fs.ticks == TickAfterPrepare(old(fs.ticks), listing, ParseDevices(listing.stdout))
    ensures step.Continue? ==>
              fs.ticks == TickAfterPrepare(old(fs.ticks), listing, ParseDevices(listing.stdout))
                          + 4 + RunTicks(logcat) + RunTicks(dumpsys)
    ensures listing.stdout != "" ==> IsPrefix(listing.stdout, Content(fs.files, logFile))
    ensures var devices := ParseDevices(listing.stdout);
            step.Exit? ==>
              IsSuffix(LogLine(Stamp(fs.clock, OutcomeTick(old(fs.ticks), listing, devices)), Outcome(devices, choice)),
                       Content(fs.files, logFile))
    ensures step.Exit? ==> forall p :: p != logFile ==> SameFile(old(fs.files), fs.files, p)
    ensures var devices := ParseDevices(listing.stdout);
            step.Continue? ==>
              1 <= choice <= |devices|
              && step.value == (Join(outputPath, LogcatName(caseNumber, devices[choice - 1])),
                                Join(outputPath, DumpsysName(caseNumber, devices[choice - 1])))
              && (logcat.stdout != "" ==> step.value.0 in fs.files && fs.files[step.value.0] == logcat.stdout)
              && (logcat.stdout == "" ==> SameFile(old(fs.files), fs.files, step.value.0))
              && (dumpsys.stdout != "" ==> step.value.1 in fs.files && fs.files[step.value.1] == dumpsys.stdout)
              && (dumpsys.stdout == "" ==> SameFile(old(fs.files), fs.files, step.value.1))
              && forall p :: p != logFile && p != step.value.0 && p != step.value.1
                             ==> SameFile(old(fs.files), fs.files, p)
  {
    var selected;
    outputPath, logFile, selected := Prepare(fs, caseNumber, typedPath, listing, choice);
    PreparedLog(old(fs.files), fs.files, logFile, listing, choice, fs.clock, old(fs.ticks));
    if selected.Exit? {
      return outputPath, logFile, Exit(selected.status);
    }
    label Prepared:
    var logcatFile, dumpsysFile := CaptureBoth(fs, outputPath, caseNumber, selected.value, logcat, dumpsys);
    step := Continue((logcatFile, dumpsysFile));
    CollectContinued(old(fs.files), old@Prepared(fs.files), fs.files, logFile, logcatFile, dumpsysFile, outputPath,
                     caseNumber, selected.value, logcat, dumpsys, fs.clock, old@Prepared(fs.ticks), listing.stdout);
  }

  /** What lines 45-74 leave in the session log: the listing, when it
      printed anything, at its head, and the outcome of the selection as
      its last line. */
  lemma PreparedLog(initial: map<string, string>, prepared: map<string, string>, logFile: string, listing: Output,
                    choice: int, clock: nat -> string, tick: nat)
    requires prepared == AfterPrepare(initial, logFile, listing, ParseDevices(listing.stdout), choice, clock, tick)
    ensures listing.stdout != "" ==> IsPrefix(listing.stdout, Content(prepared, logFile))
    ensures var devices := ParseDevices(listing.stdout);
            IsSuffix(LogLine(Stamp(clock, OutcomeTick(tick, listing, devices)), Outcome(devices, choice)),
                     Content(prepared, logFile))
  {
    PrepareLog(initial, logFile, listing, ParseDevices(listing.stdout), choice, clock, tick);
  }

  /** Past the selection step, each of the chosen device's capture files
      holds what its command printed, or is as it was when the command
      printed nothing; no file but those two and the log has changed
      since before the preparation, which wrote only the log; and what
      the log started with, it still starts with. */
  lemma CollectContinued(initial: map<string, string>, prepared: map<string, string>, after: map<string, string>,
                         logFile: string, logcatFile: string, dumpsysFile: string, outputPath: string,
                         caseNumber: string, device: string, logcat: Output, dumpsys: Output,
                         clock: nat -> string, tick: nat, head: string)
    requires logFile == Join(outputPath, LogName(caseNumber))
    requires logcatFile == Join(outputPath, LogcatName(caseNumber, device))
    requires dumpsysFile == Join(outputPath, DumpsysName(caseNumber, device))
    requires forall p :: p != logFile ==> SameFile(initial, prepared, p)
    requires after == AfterCaptures(prepared, Join(outputPath, LogName(caseNumber)), logcatFile, dumpsysFile,
                                    logcat, dumpsys, clock, tick)
    ensures IsPrefix(head, Content(prepared, logFile)) ==> IsPrefix(head, Content(after, logFile))
    ensures && (logcat.stdout != "" ==> logcatFile in after && after[logcatFile] == logcat.stdout)
            && (logcat.stdout == "" ==> SameFile(initial, after, logcatFile))
            && (dumpsys.stdout != "" ==> dumpsysFile in after && after[dumpsysFile] == dumpsys.stdout)
            && (dumpsys.stdout == "" ==> SameFile(initial, after, dumpsysFile))
            && forall p :: p != logFile && p != logcatFile && p != dumpsysFile ==> SameFile(initial, after, p)
  {
    CapturePathsDistinct(outputPath, caseNumber, device);
    CollectCaptures(initial, prepared, logFile, logcatFile, dumpsysFile, logcat, dumpsys, clock, tick);
  }

  /** The session log and the two capture files of one run are three
      different files. */
  lemma CapturePathsDistinct(outputPath: string, caseNumber: string, device: string)
    ensures var logFile := Join(outputPath, LogName(caseNumber));
            var logcatFile := Join(outputPath, LogcatName(caseNumber, device));
            var dumpsysFile := Join(outputPath, DumpsysName(caseNumber, device));
            logcatFile != logFile && dumpsysFile != logFile && logcatFile != dumpsysFile
  {
    ArtifactPathsDistinct(outputPath, caseNumber, device);
    var paths := [Join(outputPath, LogName(caseNumber)),
                  Join(outputPath, LogcatName(caseNumber, device)),
                  Join(outputPath, DumpsysName(caseNumber, device)),
                  Join(outputPath, ArchiveName(caseNumber, device)),
                  Join(outputPath, HashName(caseNumber))];
    assert paths[0] != paths[1] && paths[0] != paths[2] && paths[1] != paths[2];
  }

  /** The capture half of `Collect`: what the captures guarantee, carried
      back to the files before the preparation, which wrote only the log. */
  lemma CollectCaptures(initial: map<string, string>, prepared: map<string, string>,
                        logFile: string, logcatFile: string, dumpsysFile: string, logcat: Output, dumpsys: Output,
                        clock: nat -> string, tick: nat)
    requires logcatFile != logFile && dumpsysFile != logFile && logcatFile != dumpsysFile
    requires forall p :: p != logFile ==> SameFile(initial, prepared, p)
    ensures var after := AfterCaptures(prepared, logFile, logcatFile, dumpsysFile, logcat, dumpsys, clock, tick);
            && (forall head :: IsPrefix(head, Content(prepared, logFile)) ==> IsPrefix(head, Content(after, logFile)))
            && (logcat.stdout != "" ==> logcatFile in after && after[logcatFile] == logcat.stdout)
            && (logcat.stdout == "" ==> SameFile(initial, after, logcatFile))
            && (dumpsys.stdout != "" ==> dumpsysFile in after && after[dumpsysFile] == dumpsys.stdout)
            && (dumpsys.stdout == "" ==> SameFile(initial, after, dumpsysFile))
            && forall p :: p != logFile && p != logcatFile && p != dumpsysFile ==> SameFile(initial, after, p)
  {
    var after := AfterCaptures(prepared, logFile, logcatFile, dumpsysFile, logcat, dumpsys, clock, tick);
    CapturesOutcome(prepared, logFile, logcatFile, dumpsysFile, logcat, dumpsys, clock, tick);
    assert SameFile(initial, prepared, logcatFile) && SameFile(initial, prepared, dumpsysFile);
    forall head | IsPrefix(head, Content(prepared, logFile)) ensures IsPrefix(head, Content(after, logFile)) {
      PrefixOfPrefix(head, Content(prepared, logFile), Content(after, logFile));
    }
    forall p | p != logFile && p != logcatFile && p != dumpsysFile
      ensures SameFile(initial, after, p)
    {
      assert SameFile(initial, prepared, p);
      CapturesLeaveOthers(prepared, logFile, logcatFile, dumpsysFile, logcat, dumpsys, clock, tick, p);
    }
  }
}
