/**
 * Where the collected artifacts go (Android_volatile_data.py, lines 46,
 * 50, 77, 83, 89 and 97): the cleaning of the operator's output directory
 * and the names of the five files written under it.
 */
module Artifacts {
  import opened Strings

  /** The characters `strip("'\"")` removes. */
  predicate IsQuote(c: char) {
    c == '\'' || c == '"'
  }

  /** What cleaning may remove from either end of a typed directory. */
  predicate IsSpaceOrQuote(c: char) {
    IsSpace(c) || IsQuote(c)
  }

  /** Line 46: surrounding whitespace is trimmed first, then surrounding
      quote characters. The result is what the operator typed with only
      whitespace and quotes cut from its two ends, and it neither starts
      nor ends with a quote. */
  function CleanOutputPath(raw: string): (path: string)
    ensures IsInfix(path, raw)
    ensures TrimmedFrom(path, raw, IsSpaceOrQuote)
    ensures path != [] ==> !IsQuote(path[0]) && !IsQuote(path[|path| - 1])
  {
    var trimmed := Strip(raw, IsSpace);
    var path := Strip(trimmed, IsQuote);
    StripShape(raw, IsSpace);
    StripShape(trimmed, IsQuote);
    InfixOfInfix(path, trimmed, raw);
    TrimmedTwice(raw, trimmed, path);
    path
  }

  /** Cutting whitespace and then quotes from the ends cuts only
      whitespace and quotes from the ends of the original. */
  lemma TrimmedTwice(raw: string, trimmed: string, path: string)
    requires TrimmedFrom(trimmed, raw, IsSpace) && TrimmedFrom(path, trimmed, IsQuote)
    ensures TrimmedFrom(path, raw, IsSpaceOrQuote)
  {
    var j :| OccursAt(trimmed, raw, j) && All(raw[..j], IsSpace) && All(raw[j + |trimmed|..], IsSpace);
    var k :| OccursAt(path, trimmed, k) && All(trimmed[..k], IsQuote) && All(trimmed[k + |path|..], IsQuote);
    var i, e := j + k, k + |path|;
    OccursWithin(path, trimmed, raw, k, j, i);
    HeadWithin(raw, trimmed, j, k, i);
    TailWithin(raw, trimmed, j, e, i + |path|);
    JunkEnds(raw[..j], trimmed[..k]);
    JunkEnds(trimmed[e..], raw[j + |trimmed|..]);
    assert OccursAt(path, raw, i) && All(raw[..i], IsSpaceOrQuote) && All(raw[i + |path|..], IsSpaceOrQuote);
  }

  /** A block at `k` of a block at `j` of `s` is a block at `i == j + k` of `s`. */
  lemma OccursWithin(r: string, m: string, s: string, k: int, j: int, i: int)
    requires OccursAt(r, m, k) && OccursAt(m, s, j) && i == j + k
    ensures OccursAt(r, s, i)
  {
    forall n | 0 <= n < |r| ensures s[j + k + n] == r[n] {
      assert r[n] == m[k..k + |r|][n] == m[k + n];
      assert m[k + n] == s[j..j + |m|][k + n];
    }
    assert s[j + k..j + k + |r|] == r;
  }

  /** What precedes position `k` of a block at `j`, position `i == j + k`
      of the whole text. */
  lemma HeadWithin(s: string, m: string, j: int, k: int, i: int)
    requires OccursAt(m, s, j) && 0 <= k <= |m| && i == j + k
    ensures s[..i] == s[..j] + m[..k]
  {
    assert s[j..j + |m|] == m;
  }

  /** What follows position `e` of a block at `j`, position `a == j + e`
      of the whole text. */
  lemma TailWithin(s: string, m: string, j: int, e: int, a: int)
    requires OccursAt(m, s, j) && 0 <= e <= |m| && a == j + e
    ensures s[a..] == m[e..] + s[j + |m|..]
  {
    assert s[j..j + |m|] == m;
  }

  /** Quotes next to whitespace are junk both. */
  lemma JunkEnds(a: string, b: string)
    requires (All(a, IsSpace) && All(b, IsQuote)) || (All(a, IsQuote) && All(b, IsSpace))
    ensures All(a + b, IsSpaceOrQuote)
  {
    forall n | 0 <= n < |a + b| ensures IsSpaceOrQuote((a + b)[n]) {
      if n >= |a| { assert (a + b)[n] == b[n - |a|]; }
    }
  }

  /** Whitespace around the quotes goes, whitespace inside them stays: a
      quoted directory comes back exactly as written between the quotes. */
  lemma QuotedPathKeepsInnerSpace(lead: string, open: char, inner: string, close: char, trail: string)
    requires All(lead, IsSpace) && All(trail, IsSpace)
    requires IsQuote(open) && IsQuote(close)
    requires inner != [] && !IsQuote(inner[0]) && !IsQuote(inner[|inner| - 1])
    ensures CleanOutputPath(lead + [open] + inner + [close] + trail) == inner
  {
    var quoted := [open] + inner + [close];
    assert lead + [open] + inner + [close] + trail == lead + quoted + trail;
    TrimAroundQuotes(lead, quoted, trail);
    StripQuotes(open, inner, close);
  }

  /** A directory typed without quotes loses the whitespace around it and
      nothing else. */
  lemma UnquotedPathTrimmed(lead: string, core: string, trail: string)
    requires All(lead, IsSpace) && All(trail, IsSpace)
    requires core != [] && !IsSpaceOrQuote(core[0]) && !IsSpaceOrQuote(core[|core| - 1])
    ensures CleanOutputPath(lead + core + trail) == core
  {
    var rest := core + trail;
    assert lead + core + trail == lead + rest;
    LStripDropsHead(lead, rest, IsSpace);
    assert rest[0] == core[0];
    assert LStrip(rest, IsSpace) == rest;
    RStripDropsTail(core, trail, IsSpace);
    assert RStrip(core, IsSpace) == core;
    assert LStrip(core, IsQuote) == core;
    assert RStrip(core, IsQuote) == core;
  }

  /** Whitespace-trimming stops at the quotes. */
  lemma TrimAroundQuotes(lead: string, quoted: string, trail: string)
    requires All(lead, IsSpace) && All(trail, IsSpace)
    requires quoted != [] && IsQuote(quoted[0]) && IsQuote(quoted[|quoted| - 1])
    ensures Strip(lead + quoted + trail, IsSpace) == quoted
  {
    assert !IsSpace(quoted[0]) && !IsSpace(quoted[|quoted| - 1]);
    var rest := quoted + trail;
    assert lead + quoted + trail == lead + rest;
    LStripDropsHead(lead, rest, IsSpace);
    assert rest[0] == quoted[0];
    assert LStrip(rest, IsSpace) == rest;
    RStripDropsTail(quoted, trail, IsSpace);
    assert RStrip(quoted, IsSpace) == quoted;
  }

  /** Quote-stripping removes exactly one quote at each end when the text
      between them neither starts nor ends with a quote. */
  lemma StripQuotes(open: char, inner: string, close: char)
    requires IsQuote(open) && IsQuote(close)
    requires inner != [] && !IsQuote(inner[0]) && !IsQuote(inner[|inner| - 1])
    ensures Strip([open] + inner + [close], IsQuote) == inner
  {
    LeadingQuote(open, inner, close);
    TrailingQuote(inner, close);
  }

  /** The left half of `StripQuotes`. */
  lemma LeadingQuote(open: char, inner: string, close: char)
    requires IsQuote(open) && inner != [] && !IsQuote(inner[0])
    ensures LStrip([open] + inner + [close], IsQuote) == inner + [close]
  {
    assert ([open] + inner + [close])[1..] == inner + [close];
    assert (inner + [close])[0] == inner[0];
  }

  /** The right half of `StripQuotes`. */
  lemma TrailingQuote(inner: string, close: char)
    requires IsQuote(close) && inner != [] && !IsQuote(inner[|inner| - 1])
    ensures RStrip(inner + [close], IsQuote) == inner
  {
    assert (inner + [close])[..|inner|] == inner;
    assert RStrip(inner, IsQuote) == inner;
  }

  /** Cleaning is not idempotent: a quoted directory that starts with a
      space keeps the space once, and loses it when cleaned again. */
  lemma CleaningNotIdempotent(q: char, inner: string)
    requires IsQuote(q) && inner != [] && IsSpace(inner[0]) && !IsQuote(inner[|inner| - 1])
    ensures CleanOutputPath(CleanOutputPath([q] + inner + [q])) != CleanOutputPath([q] + inner + [q])
  {
    assert [q] + inner + [q] == [] + [q] + inner + [q] + [];
    QuotedPathKeepsInnerSpace([], q, inner, q, []);
    var once := CleanOutputPath([q] + inner + [q]);
    assert once == inner;
    var trimmed := Strip(inner, IsSpace);
    StripShape(inner, IsSpace);
    assert |trimmed| < |inner| by {
      var i :| OccursAt(trimmed, inner, i);
      if trimmed != [] && i == 0 {
        assert trimmed[0] == inner[0];
      }
    }
    var twice := Strip(trimmed, IsQuote);
    StripShape(trimmed, IsQuote);
    assert |twice| <= |trimmed|;
  }

  /** `os.path.join(directory, name)` with POSIX separators: a name that is
      absolute replaces the directory; otherwise one '/' separates the two
      unless the directory is empty or already ends with '/'. */
  function Join(directory: string, name: string): string {
    if name != [] && name[0] == '/' then name
    else if directory == [] || directory[|directory| - 1] == '/' then directory + name
    else directory + "/" + name
  }

  /** A relative name can be read back off the end of its joined path, so
      two different names never land on the same path. */
  lemma JoinInjective(directory: string, a: string, b: string)
    requires a != [] && a[0] != '/' && b != [] && b[0] != '/'
    requires Join(directory, a) == Join(directory, b)
    ensures a == b
  {
    var p := Join(directory, a);
    var n := if directory == [] || directory[|directory| - 1] == '/' then |directory| else |directory| + 1;
    assert p[n..] == a;
    assert Join(directory, b)[n..] == b;
  }

  /** Line 50: the session log. */
  function LogName(caseNumber: string): string {
    "log_case_" + caseNumber + ".log"
  }

  /** Line 77: the logcat capture. */
  function LogcatName(caseNumber: string, device: string): string {
    "logcat_case_" + caseNumber + "_device_" + device + ".txt"
  }

  /** Line 83: the dumpsys capture. */
  function DumpsysName(caseNumber: string, device: string): string {
    "dumpsys_case_" + caseNumber + "_device_" + device + ".txt"
  }

  /** Line 89: the archive of both captures. */
  function ArchiveName(caseNumber: string, device: string): string {
    "Android_Logs_Case_" + caseNumber + "_Device_" + device + ".zip"
  }

  /** Line 97: the hash sidecar, named by the case alone. */
  function HashName(caseNumber: string): string {
    "Android_Logs_Case_" + caseNumber + ".md5"
  }

  /** The five artifacts of one run are five different files, whatever the
      case number, device id and directory: no write clobbers another. */
  lemma ArtifactPathsDistinct(directory: string, caseNumber: string, device: string)
    ensures var paths := [Join(directory, LogName(caseNumber)),
                          Join(directory, LogcatName(caseNumber, device)),
                          Join(directory, DumpsysName(caseNumber, device)),
                          Join(directory, ArchiveName(caseNumber, device)),
                          Join(directory, HashName(caseNumber))];
            forall i, j :: 0 <= i < j < 5 ==> paths[i] != paths[j]
  {
    var names := [LogName(caseNumber), LogcatName(caseNumber, device), DumpsysName(caseNumber, device),
                  ArchiveName(caseNumber, device), HashName(caseNumber)];
    assert names[0][3] == '_' && names[1][3] == 'c';
    assert names[0][0] == 'l' && names[1][0] == 'l' && names[2][0] == 'd';
    assert names[3][0] == 'A' && names[4][0] == 'A';
    var k := 18 + |caseNumber|;
    assert names[3][k] == '_' && names[4][k] == '.';
    forall i, j | 0 <= i < j < 5 ensures Join(directory, names[i]) != Join(directory, names[j]) {
      if Join(directory, names[i]) == Join(directory, names[j]) {
        JoinInjective(directory, names[i], names[j]);
      }
    }
  }

  /** Within one case, the device id is determined by each of the three
      device-specific file names. */
  lemma DeviceNamesInjective(caseNumber: string, d1: string, d2: string)
    ensures LogcatName(caseNumber, d1) == LogcatName(caseNumber, d2) ==> d1 == d2
    ensures DumpsysName(caseNumber, d1) == DumpsysName(caseNumber, d2) ==> d1 == d2
    ensures ArchiveName(caseNumber, d1) == ArchiveName(caseNumber, d2) ==> d1 == d2
  {
    var n := |caseNumber|;
    var l1, l2 := LogcatName(caseNumber, d1), LogcatName(caseNumber, d2);
    assert l1[20 + n..|l1| - 4] == d1 && l2[20 + n..|l2| - 4] == d2;
    var s1, s2 := DumpsysName(caseNumber, d1), DumpsysName(caseNumber, d2);
    assert s1[21 + n..|s1| - 4] == d1 && s2[21 + n..|s2| - 4] == d2;
    var a1, a2 := ArchiveName(caseNumber, d1), ArchiveName(caseNumber, d2);
    assert a1[26 + n..|a1| - 4] == d1 && a2[26 + n..|a2| - 4] == d2;
  }

  /** The sidecar is not the archive's name with its extension changed: it
      drops the device id, so runs of one case on two devices share it. */
  lemma SidecarNotNamedAfterArchive(caseNumber: string, device: string)
    ensures var archive := ArchiveName(caseNumber, device);
            archive[..|archive| - 4] + ".md5" != HashName(caseNumber)
  {
  }
}
