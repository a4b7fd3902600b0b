/**
 * Detection and selection of the attached device
 * (Android_volatile_data.py, lines 56-73): the `adb devices` listing is
 * turned into a list of device ids, and the operator's 1-based choice is
 * checked against it.
 */
module Devices {
  import opened Strings

  /** The text a listing line must contain to be offered for selection. */
  const Marker := "device"

  /** The lines of the listing: the output with surrounding whitespace
      trimmed, split at newlines; no lines at all for empty output. */
  function OutputLines(stdout: string): seq<string> {
    if stdout == "" then [] else Split(Strip(stdout, IsSpace), '\n')
  }

  /** The device id on a listing line: the text before its first tab. */
  function DeviceId(line: string): string {
    Split(line, '\t')[0]
  }

  /** The id is the longest tab-free head of the line: it is a prefix of
      the line and is either the whole line or followed by a tab. */
  lemma DeviceIdShape(line: string)
    ensures var id := DeviceId(line);
            && IsPrefix(id, line) && '\t' !in id
            && (id == line || line[|id|] == '\t')
  {
    FirstPiece(line, '\t');
    SplitPieces(line, '\t');
  }

  /** The ids of the lines that mention the marker, in line order. */
  function Candidates(lines: seq<string>): seq<string> {
    if lines == [] then []
    else (if Contains(lines[0], Marker) then [DeviceId(lines[0])] else []) + Candidates(lines[1..])
  }

  /** At most one id per line, and no id contains a tab. */
  lemma {:induction false} CandidatesShape(lines: seq<string>)
    ensures var ids := Candidates(lines);
            && |ids| <= |lines|
            && forall k :: 0 <= k < |ids| ==> '\t' !in ids[k]
  {
    if lines != [] {
      CandidatesShape(lines[1..]);
      DeviceIdShape(lines[0]);
    }
  }

  /** The selectable devices: every line after the first (the header) that
      mentions the marker contributes its id. There is at most one id per
      non-header line, and none for empty output. */
  function ParseDevices(stdout: string): seq<string> {
    var lines := OutputLines(stdout);
    if lines == [] then [] else Candidates(lines[1..])
  }

  /** No output offers no device; otherwise there is at most one device per
      line after the header, and no id contains a tab. */
  lemma ParsedDevicesShape(stdout: string)
    ensures var ids := ParseDevices(stdout);
            && (stdout == "" ==> ids == [])
            && (|ids| == 0 || |ids| <= |OutputLines(stdout)| - 1)
            && (forall k :: 0 <= k < |ids| ==> '\t' !in ids[k])
  {
    var lines := OutputLines(stdout);
    if lines != [] {
      CandidatesShape(lines[1..]);
    }
  }

  /** Candidates are computed line by line: the ids of a concatenation are
      the concatenation of the ids. */
  lemma {:induction false} CandidatesConcat(a: seq<string>, b: seq<string>)
    ensures Candidates(a + b) == Candidates(a) + Candidates(b)
  {
    if a != [] {
      assert (a + b)[1..] == a[1..] + b;
      CandidatesConcat(a[1..], b);
    } else {
      assert a + b == b;
    }
  }

  /** Wherever a line stands, it contributes its id exactly when it
      mentions the marker, between the ids of the lines before it and the
      ids of the lines after it. */
  lemma LineKeptIffMarked(before: seq<string>, line: string, after: seq<string>)
    ensures Candidates(before + [line] + after)
         == Candidates(before) + (if Contains(line, Marker) then [DeviceId(line)] else []) + Candidates(after)
  {
    CandidatesConcat(before + [line], after);
    CandidatesConcat(before, [line]);
  }

  /** Every selectable id is the id of a line that mentions the marker. */
  lemma {:induction false} CandidateFromMarkedLine(lines: seq<string>, k: nat)
    requires k < |Candidates(lines)|
    ensures exists j :: 0 <= j < |lines| && Contains(lines[j], Marker) && Candidates(lines)[k] == DeviceId(lines[j])
  {
    var head := if Contains(lines[0], Marker) then [DeviceId(lines[0])] else [];
    if k < |head| {
      assert Contains(lines[0], Marker) && Candidates(lines)[k] == DeviceId(lines[0]);
    } else {
      CandidateFromMarkedLine(lines[1..], k - |head|);
      var j :| 0 <= j < |lines[1..]| && Contains(lines[1..][j], Marker)
               && Candidates(lines[1..])[k - |head|] == DeviceId(lines[1..][j]);
      assert lines[j + 1] == lines[1..][j];
    }
  }

  /** A first line with some non-blank text, as `adb devices` prints,
      never yields a device, whatever else it says: the devices are those
      of the lines after it. (A listing that starts with a newline loses it
      to the trimming, and its next line becomes the header.) */
  lemma HeaderIgnored(header: string, body: string)
    requires '\n' !in header && !All(header, IsSpace)
    ensures ParseDevices(header + "\n" + body) == Candidates(Split(RStrip(body, IsSpace), '\n'))
  {
    var h := LeadingTrimInHeader(header, body);
    LinesAfterHeader(header, body, h);
  }

  /** Leading whitespace is trimmed inside the header, leaving a header
      `h` that still has no newline. */
  lemma LeadingTrimInHeader(header: string, body: string) returns (h: string)
    requires '\n' !in header && !All(header, IsSpace)
    ensures '\n' !in h && LStrip(header + "\n" + body, IsSpace) == h + "\n" + body
  {
    h := LStrip(header, IsSpace);
    LStripShape(header, IsSpace);
    AbsentFromTail(header, '\n', |header| - |h|);
    LStripStopsIn(header, "\n" + body, IsSpace);
    assert header + "\n" + body == header + ("\n" + body);
    assert h + "\n" + body == h + ("\n" + body);
  }

  /** `HeaderIgnored` once the leading trim is known to stop in the header
      (at `h`): case split on whether the body has any text. */
  lemma LinesAfterHeader(header: string, body: string, h: string)
    requires '\n' !in h && LStrip(header + "\n" + body, IsSpace) == h + "\n" + body
    ensures ParseDevices(header + "\n" + body) == Candidates(Split(RStrip(body, IsSpace), '\n'))
  {
    var lines := Split(RStrip(h + "\n" + body, IsSpace), '\n');
    assert ParseDevices(header + "\n" + body) == Candidates(lines[1..]);
    if All(body, IsSpace) {
      BlankBody(h, body);
    } else {
      TextBody(h, body);
    }
  }

  /** The body of `HeaderIgnored` when the body has text: the lines after
      the header are the lines of the body. */
  lemma TextBody(h: string, body: string)
    requires '\n' !in h && !All(body, IsSpace)
    ensures Split(RStrip(h + "\n" + body, IsSpace), '\n')[1..] == Split(RStrip(body, IsSpace), '\n')
  {
    RStripStopsIn(h + "\n", body, IsSpace);
    assert h + "\n" + RStrip(body, IsSpace) == h + ['\n'] + RStrip(body, IsSpace);
    SplitFirst(h, '\n', RStrip(body, IsSpace));
  }

  /** The blank-body case of `HeaderIgnored`: only the header is left. */
  lemma BlankBody(h: string, body: string)
    requires '\n' !in h && All(body, IsSpace)
    ensures Split(RStrip(h + "\n" + body, IsSpace), '\n')[1..] == []
    ensures Candidates(Split(RStrip(body, IsSpace), '\n')) == []
  {
    assert All("\n" + body, IsSpace) by {
      forall k | 0 <= k < |"\n" + body| ensures IsSpace(("\n" + body)[k]) {
        if k > 0 { assert ("\n" + body)[k] == body[k - 1]; }
      }
    }
    assert h + "\n" + body == h + ("\n" + body);
    RStripDropsTail(h, "\n" + body, IsSpace);
    var t := RStrip(h, IsSpace);
    RStripShape(h, IsSpace);
    assert '\n' !in t by {
      assert forall k :: 0 <= k < |t| ==> t[k] == h[k];
    }
    SplitNoSep(t, '\n');
    RStripDropsTail([], body, IsSpace);
    assert [] + body == body;
  }

  /** The listing of a machine with one ready and one offline device
      offers only the ready one, although the header mentions "devices".
      (The lines are parameters so that the verifier reasons about them
      symbolically instead of unfolding every function on the text.) */
  lemma ExampleListing(header: string, ready: string, offline: string)
    requires header == "List of devices attached"
    requires ready == "abc123\tdevice" && offline == "def456\toffline"
    ensures Contains(header, Marker)
    ensures ParseDevices(header + "\n" + ready + "\n" + offline) == ["abc123"]
  {
    ExampleHeaderMarked(header);
    ExampleReadyMarked(ready);
    ExampleReadyId(ready);
    ExampleOfflineUnmarked(offline);
    ReadyThenOfflineListing(header, ready, offline);
  }

  /** A header, one line that mentions the marker and one that does not
      (and does not end in whitespace) offer exactly the first line's id. */
  lemma ReadyThenOfflineListing(header: string, ready: string, offline: string)
    requires '\n' !in header && !All(header, IsSpace)
    requires '\n' !in ready && Contains(ready, Marker)
    requires '\n' !in offline && !Contains(offline, Marker)
    requires offline != [] && !IsSpace(offline[|offline| - 1])
    ensures ParseDevices(header + "\n" + ready + "\n" + offline) == [DeviceId(ready)]
  {
    var body := ready + "\n" + offline;
    assert header + "\n" + ready + "\n" + offline == header + "\n" + body;
    HeaderIgnored(header, body);
    assert RStrip(body, IsSpace) == body;
    TwoLines(ready, offline);
    ReadyThenOffline(ready, offline);
  }

  /** The header of `ExampleListing` mentions the marker. */
  lemma ExampleHeaderMarked(header: string)
    requires header == "List of devices attached"
    ensures Contains(header, Marker)
    ensures '\n' !in header && !All(header, IsSpace)
  {
    assert !IsSpace(header[0]);
    assert OccursAt(Marker, header, 8);
    ContainsAt(header, Marker);
  }

  /** The ready line of `ExampleListing` mentions the marker. */
  lemma ExampleReadyMarked(ready: string)
    requires ready == "abc123\tdevice"
    ensures Contains(ready, Marker) && '\n' !in ready
  {
    assert OccursAt(Marker, ready, 7);
    ContainsAt(ready, Marker);
  }

  /** The id on the ready line of `ExampleListing`. */
  lemma ExampleReadyId(ready: string)
    requires ready == "abc123\tdevice"
    ensures DeviceId(ready) == "abc123"
  {
    SplitFirst("abc123", '\t', "device");
    assert "abc123" + ['\t'] + "device" == ready;
  }

  /** The offline line of `ExampleListing` does not mention the marker:
      it has no 'v'. */
  lemma ExampleOfflineUnmarked(offline: string)
    requires offline == "def456\toffline"
    ensures !Contains(offline, Marker) && '\n' !in offline
    ensures offline != [] && !IsSpace(offline[|offline| - 1])
  {
    if Contains(offline, Marker) {
      ContainsChars(offline, Marker, 'v');
    }
  }

  /** Two lines joined by a newline split back into those two lines. */
  lemma TwoLines(a: string, b: string)
    requires '\n' !in a && '\n' !in b
    ensures Split(a + "\n" + b, '\n') == [a, b]
  {
    SplitNoSep(b, '\n');
    SplitFirst(a, '\n', b);
  }

  /** A marked line followed by an unmarked one offers just the first id. */
  lemma ReadyThenOffline(ready: string, offline: string)
    requires Contains(ready, Marker) && !Contains(offline, Marker)
    ensures Candidates([ready, offline]) == [DeviceId(ready)]
  {
    LineKeptIffMarked([], ready, [offline]);
    LineKeptIffMarked([ready], offline, []);
    assert [ready] + [offline] + [] == [ready, offline];
  }

  /** Why no device can be captured from. */
  datatype Failure = NoDevices | InvalidSelection

  /** The outcome of the selection step. */
  datatype Selection = Selected(device: string) | Rejected(failure: Failure)

  /** Lines 59-73: an empty device list is fatal before any choice is
      asked for; otherwise the 1-based `choice` must lie in 1..|devices|. */
  function Select(devices: seq<string>, choice: int): (r: Selection)
    ensures r.Selected? <==> devices != [] && 1 <= choice <= |devices|
    ensures r.Selected? ==> r.device == devices[choice - 1]
    ensures r.Rejected? ==> r.failure == (if devices == [] then NoDevices else InvalidSelection)
  {
    if devices == [] then Rejected(NoDevices)
    else
      var index := choice - 1;
      if index < 0 || index >= |devices| then Rejected(InvalidSelection)
      else Selected(devices[index])
  }

  /** The line logged (to the log file only) for each failure. */
  function FailureMessage(f: Failure): string {
    match f
    case NoDevices => "No Android devices detected!"
    case InvalidSelection => "Invalid selection. Exiting."
  }

  /** Both failures end the process with status 1. */
  const FailureStatus := 1
}
