/**
  The text-format reader (powermon.py): it recognises CM180 lines in the
  output of rtl_433, extracts the power and timestamp digits and builds the
  `rrdtool update` command for each reading. With `--init` it builds the
  `rrdtool create` command for the round-robin database instead.
  Running the commands and the subprocess itself are outside the model:
  the reader's output is a sequence of lines and the issued commands are
  returned as strings.
 */
module PowerMon {
  import opened Wrappers
  import opened Text

  /** The prefix that marks a line from the Owl CM180 energy sensor. */
  const SensorPrefix: string := "Energy Sensor CM180"

  const PowerLabel: string := "power: "
  const TimeLabel: string := "Time: "

  // ---------------------------------------------------------------------------
  // `re.search(marker + r"(\d+)", line).group(1)` for a marker without
  // metacharacters: the leftmost place where the marker is followed by a digit,
  // and then the longest run of digits there.
  // ---------------------------------------------------------------------------

  /** The pattern `marker(\d+)` can match at `i`. */
  predicate MatchAt(s: string, marker: string, i: int)
  {
    0 <= i && i + |marker| < |s| && s[i..i + |marker|] == marker && IsDigit(s[i + |marker|])
  }

  /** The greedy `\d+`: the longest run of digits starting at `k`. */
  function DigitRun(s: string, k: nat): (d: string)
    requires k <= |s|
    ensures AllDigits(d) && k + |d| <= |s| && s[k..k + |d|] == d
    ensures k + |d| == |s| || !IsDigit(s[k + |d|])
    decreases |s| - k
  {
    if k < |s| && IsDigit(s[k]) then [s[k]] + DigitRun(s, k + 1) else []
  }

  /** The leftmost position at or after `i` where `marker(\d+)` matches. */
  function SearchFrom(s: string, marker: string, i: nat): (r: Option<nat>)
    requires i <= |s|
    ensures r.Some? ==> i <= r.value && MatchAt(s, marker, r.value)
    ensures r.Some? ==> forall j :: i <= j < r.value ==> !MatchAt(s, marker, j)
    ensures r.None? ==> forall j :: i <= j ==> !MatchAt(s, marker, j)
    decreases |s| - i
  {
    if i + |marker| >= |s| then None
    else if MatchAt(s, marker, i) then Some(i)
    else SearchFrom(s, marker, i + 1)
  }

  /**
    The first group of `re.search(marker + r"(\d+)", s)`, or None when the
    pattern does not match (where the script calls `.group` on None).
    SearchFinds states which digits it returns.
   */
  function Search(s: string, marker: string): (r: Option<string>)
    ensures r.None? <==> forall j :: !MatchAt(s, marker, j)
    ensures r.Some? ==> |r.value| >= 1 && AllDigits(r.value)
  {
    match SearchFrom(s, marker, 0)
    case None => None
    case Some(i) => Some(DigitRun(s, i + |marker|))
  }

  /** The leftmost match: the pattern matches at `i` and nowhere before. */
  ghost predicate LeftmostMatch(s: string, marker: string, i: int)
  {
    MatchAt(s, marker, i) && forall j :: 0 <= j < i ==> !MatchAt(s, marker, j)
  }

  /** The search returns the longest run of digits after the leftmost match. */
  lemma SearchFinds(s: string, marker: string, i: nat)
    requires LeftmostMatch(s, marker, i)
    ensures Search(s, marker) == Some(DigitRun(s, i + |marker|))
  {
    SearchFromFinds(s, marker, 0, i);
  }

  lemma {:induction false} SearchFromFinds(s: string, marker: string, start: nat, i: nat)
    requires start <= i && MatchAt(s, marker, i)
    requires forall j :: start <= j < i ==> !MatchAt(s, marker, j)
    ensures SearchFrom(s, marker, start) == Some(i)
    decreases i - start
  {
    if start < i {
      SearchFromFinds(s, marker, start + 1, i);
    }
  }

  // ---------------------------------------------------------------------------
  // One line of rtl_433 output
  // ---------------------------------------------------------------------------

  datatype Field = Power | Time

  /** What `run` does with one line: skip it, extract a reading, or fail on `m.group` of None. */
  datatype LineOutcome =
    | Skipped
    | Reading(power: string, ts: string)
    | Missing(field: Field)

  /** What `run` does with one line; ParseLineCases states the cases. */
  function ParseLine(line: string): LineOutcome
  {
    if !StartsWith(line, SensorPrefix) then Skipped
    else
      match Search(line, PowerLabel)
      case None => Missing(Power)
      case Some(power) =>
        match Search(line, TimeLabel)
        case None => Missing(Time)
        case Some(ts) => Reading(power, ts)
  }

  /**
    Lines without the sensor prefix are skipped. On a prefixed line the power
    is searched first, so a line lacking both fields fails on the power; a
    reading carries two non-empty digit strings, the ones the searches find.
   */
  lemma ParseLineCases(line: string)
    ensures ParseLine(line).Skipped? <==> !StartsWith(line, SensorPrefix)
    ensures ParseLine(line) == Missing(Power) <==>
      StartsWith(line, SensorPrefix) && forall j :: !MatchAt(line, PowerLabel, j)
    ensures ParseLine(line) == Missing(Time) <==>
      && StartsWith(line, SensorPrefix)
      && (exists j :: MatchAt(line, PowerLabel, j))
      && forall j :: !MatchAt(line, TimeLabel, j)
    ensures ParseLine(line).Reading? ==>
      var r := ParseLine(line);
      && |r.power| >= 1 && AllDigits(r.power) && Some(r.power) == Search(line, PowerLabel)
      && |r.ts| >= 1 && AllDigits(r.ts) && Some(r.ts) == Search(line, TimeLabel)
  {
  }

  /**
    The example line quoted in the reader's loop,
    `Energy Sensor CM180, Id: 62a1, power: 577W, Time: 1452027145 `, assembled
    from its parts so that each search can see where its marker stands.
   */
  function ExampleText(): string
  {
    SensorPrefix + ", Id: 62a1, " + PowerLabel + "577" + "W, " + TimeLabel + "1452027145" + " "
  }

  /** The example line gives 577 W at 1452027145. */
  lemma ExampleLine()
    ensures ParseLine(ExampleText()) == Reading("577", "1452027145")
  {
    Regroup(SensorPrefix, ", Id: 62a1, ", PowerLabel, "577", "W, ", TimeLabel, "1452027145", " ");
    OccursAtEnds(SensorPrefix, ", Id: 62a1, " + PowerLabel + "577" + "W, " + TimeLabel + "1452027145" + " ");
    ExamplePower();
    ExampleTime();
  }

  lemma ExamplePower()
    ensures Search(ExampleText(), PowerLabel) == Some("577")
  {
    Regroup(SensorPrefix, ", Id: 62a1, ", PowerLabel, "577", "W, ", TimeLabel, "1452027145", " ");
    var head := SensorPrefix + ", Id: 62a1, ";
    assert 'p' !in head;
    SearchIn(head, PowerLabel, "577", "W, " + TimeLabel + "1452027145" + " ");
  }

  lemma ExampleTime()
    ensures Search(ExampleText(), TimeLabel) == Some("1452027145")
  {
    Regroup(SensorPrefix, ", Id: 62a1, ", PowerLabel, "577", "W, ", TimeLabel, "1452027145", " ");
    var head := SensorPrefix + ", Id: 62a1, " + PowerLabel + "577" + "W, ";
    assert 'T' !in head;
    SearchIn(head, TimeLabel, "1452027145", " ");
  }

  /** The search finds the digits after the first place the marker's first character occurs. */
  lemma SearchIn(head: string, marker: string, digits: string, tail: string)
    requires |marker| > 0 && marker[0] !in head
    requires |digits| > 0 && AllDigits(digits)
    requires tail == [] || !IsDigit(tail[0])
    ensures Search(head + marker + digits + tail, marker) == Some(digits)
  {
    var s := head + marker + digits + tail;
    var h := |head|;
    var k := h + |marker|;
    assert s[..h] == head;
    assert s[h..k] == marker;
    assert s[k..k + |digits|] == digits;
    assert k + |digits| < |s| ==> s[k + |digits|] == tail[0];
    SearchAfter(s, h, marker, digits);
  }

  /**
    When the first character of the marker does not occur before position `h`,
    the marker stands at `h` and is followed by a maximal run of digits, the
    search returns those digits.
   */
  lemma SearchAfter(s: string, h: nat, marker: string, digits: string)
    requires |marker| > 0 && h + |marker| + |digits| <= |s|
    requires marker[0] !in s[..h] && s[h..h + |marker|] == marker
    requires |digits| > 0 && AllDigits(digits) && s[h + |marker|..h + |marker| + |digits|] == digits
    requires h + |marker| + |digits| == |s| || !IsDigit(s[h + |marker| + |digits|])
    ensures Search(s, marker) == Some(digits)
  {
    var k := h + |marker|;
    assert s[k] == s[k..k + |digits|][0];
    DigitRunIs(s, k, digits);
    NoMatchBefore(s, marker, h);
    SearchFinds(s, marker, h);
  }

  /** A maximal run of digits at `k` is what `DigitRun` returns. */
  lemma {:induction false} DigitRunIs(s: string, k: nat, d: string)
    requires OccursAt(s, d, k) && AllDigits(d)
    requires k + |d| == |s| || !IsDigit(s[k + |d|])
    ensures DigitRun(s, k) == d
    decreases |d|
  {
    if d != [] {
      assert s[k] == s[k..k + |d|][0] == d[0];
      assert s[k + 1..k + 1 + |d[1..]|] == s[k..k + |d|][1..];
      DigitRunIs(s, k + 1, d[1..]);
    }
  }

  /** No match can start before `n` when the first character of the marker does not occur there. */
  lemma NoMatchBefore(s: string, marker: string, n: nat)
    requires 0 < |marker| && n <= |s| && marker[0] !in s[..n]
    ensures forall j :: 0 <= j < n ==> !MatchAt(s, marker, j)
  {
    forall j | 0 <= j < n
      ensures !MatchAt(s, marker, j)
    {
      assert s[..n][j] == s[j] != marker[0];
      if j + |marker| <= |s| {
        assert s[j..j + |marker|][0] == s[j];
      }
    }
  }

  // ---------------------------------------------------------------------------
  // rrdtool commands
  // ---------------------------------------------------------------------------

  /** `update_rrd`: the timestamp comes first, then the power. */
  function UpdateCommand(rrdFile: string, power: string, ts: string): (cmd: string)
    ensures StartsWith(cmd, UpdatePrefix(rrdFile))
  {
    "rrdtool update " + rrdFile + " " + ts + ":" + power
  }

  function UpdatePrefix(rrdFile: string): string
  {
    "rrdtool update " + rrdFile + " "
  }

  /** Index of the first ':' in `s`, or |s| when there is none. */
  function ColonIndex(s: string): (k: nat)
    ensures k <= |s| && (k < |s| ==> s[k] == ':')
    ensures forall j :: 0 <= j < k ==> s[j] != ':'
  {
    if s == [] then 0 else if s[0] == ':' then 0 else 1 + ColonIndex(s[1..])
  }

  /**
    How rrdtool reads the argument of an update: `<timestamp>:<value>`.
    Gives back (timestamp, value) of a command built for `rrdFile`.
   */
  function UpdateArgument(rrdFile: string, cmd: string): Option<(string, string)>
  {
    var prefix := UpdatePrefix(rrdFile);
    if !StartsWith(cmd, prefix) then None
    else
      var arg := cmd[|prefix|..];
      var k := ColonIndex(arg);
      if k == |arg| then None else Some((arg[..k], arg[k + 1..]))
  }

  /** rrdtool receives the extracted timestamp as the time and the extracted power as the value. */
  lemma UpdateCommandRoundTrip(rrdFile: string, power: string, ts: string)
    requires AllDigits(ts)
    ensures UpdateArgument(rrdFile, UpdateCommand(rrdFile, power, ts)) == Some((ts, power))
  {
    var cmd := UpdateCommand(rrdFile, power, ts);
    var arg := ts + ":" + power;
    assert cmd[|UpdatePrefix(rrdFile)|..] == arg;
    ColonAfterDigits(ts, power);
    assert arg[..|ts|] == ts && arg[|ts| + 1..] == power;
  }

  lemma {:induction false} ColonAfterDigits(ts: string, rest: string)
    requires AllDigits(ts)
    ensures ColonIndex(ts + ":" + rest) == |ts|
    decreases |ts|
  {
    if ts != [] {
      assert (ts + ":" + rest)[1..] == ts[1..] + ":" + rest;
      ColonAfterDigits(ts[1..], rest);
    }
  }

  /** Consolidation functions of the round-robin archives. */
  datatype Consolidation = Last | Average | Min | Max

  function ConsolidationName(cf: Consolidation): string
  {
    match cf
    case Last => "LAST"
    case Average => "AVERAGE"
    case Min => "MIN"
    case Max => "MAX"
  }

  /** `RRA:<cf>:0.5:<steps>:<rows>`: each row consolidates `steps` primary samples. */
  datatype Archive = Archive(cf: Consolidation, steps: nat, rows: nat)

  const StepSeconds: nat := 10

  /** The single data source: gauge `watts`, heartbeat 300 s, range 0..5000. */
  const DataSource: string := "DS:watts:GAUGE:300:0:5000"

  const Archives: seq<Archive> := [
    Archive(Last, 1, 60480),
    Archive(Average, 1, 4320), Archive(Average, 6, 1440), Archive(Average, 60, 1008),
    Archive(Min, 1, 3600), Archive(Min, 6, 1440), Archive(Min, 60, 1008),
    Archive(Max, 1, 3600), Archive(Max, 6, 1440), Archive(Max, 60, 1008)
  ]

  function ArchiveSpec(a: Archive): string
  {
    "RRA:" + ConsolidationName(a.cf) + ":0.5:" + Decimal(a.steps) + ":" + Decimal(a.rows)
  }

  /** Seconds of history an archive keeps. */
  function Retention(a: Archive): nat
  {
    StepSeconds * a.steps * a.rows
  }

  /** Words joined into one shell command line, each preceded by a space. */
  function Unwords(words: seq<string>): string
  {
    if words == [] then "" else " " + words[0] + Unwords(words[1..])
  }

  /** The words of `init`'s create command after the file name, one per line of the script's literal. */
  const CreateWords: seq<string> := [
    "--step", "10",
    "DS:watts:GAUGE:300:0:5000",
    "RRA:LAST:0.5:1:60480",
    "RRA:AVERAGE:0.5:1:4320",
    "RRA:AVERAGE:0.5:6:1440",
    "RRA:AVERAGE:0.5:60:1008",
    "RRA:MIN:0.5:1:3600",
    "RRA:MIN:0.5:6:1440",
    "RRA:MIN:0.5:60:1008",
    "RRA:MAX:0.5:1:3600",
    "RRA:MAX:0.5:6:1440",
    "RRA:MAX:0.5:60:1008"
  ]

  /** The command `init` issues; the script's literal ends with a space. */
  function CreateCommand(rrdFile: string): string
  {
    "rrdtool create " + rrdFile + Unwords(CreateWords) + " "
  }

  /**
    The words of the create command are exactly the schema above: the step,
    the data source and the ten archives, in order.
   */
  lemma CreateCommandRendersSchema()
    ensures |CreateWords| == 3 + |Archives|
    ensures CreateWords[0] == "--step" && CreateWords[1] == Decimal(StepSeconds)
    ensures CreateWords[2] == DataSource
    ensures forall k :: 0 <= k < |Archives| ==> CreateWords[k + 3] == ArchiveSpec(Archives[k])
  {
    forall k | 0 <= k < |Archives|
      ensures CreateWords[k + 3] == ArchiveSpec(Archives[k])
    {
      ArchiveWord(k);
    }
    StepNumber();
  }

  lemma StepNumber()
    ensures Decimal(StepSeconds) == CreateWords[1]
  {
    ArchiveNumbers();
  }

  /** The word of the `k`th archive in the literal is that archive's specification. */
  lemma ArchiveWord(k: nat)
    requires k < |Archives|
    ensures CreateWords[k + 3] == ArchiveSpec(Archives[k])
  {
    if k == 0 {
      RraLast();
    } else if k == 1 {
      RraAverage1();
    } else if k == 2 {
      RraAverage6();
    } else if k == 3 {
      RraAverage60();
    } else if k == 4 {
      RraMin1();
    } else if k == 5 {
      RraMin6();
    } else if k == 6 {
      RraMin60();
    } else if k == 7 {
      RraMax1();
    } else if k == 8 {
      RraMax6();
    } else {
      RraMax60();
    }
  }

  // `CreateWords` is the script's literal word for word; one lemma per archive
  // word keeps each comparison of rendered and literal text small for the solver.

  lemma RraLast()
    ensures ArchiveSpec(Archives[0]) == CreateWords[3]
  {
    ArchiveNumbers();
  }

  lemma RraAverage1()
    ensures ArchiveSpec(Archives[1]) == CreateWords[4]
  {
    ArchiveNumbers();
  }

  lemma RraAverage6()
    ensures ArchiveSpec(Archives[2]) == CreateWords[5]
  {
    ArchiveNumbers();
  }

  lemma RraAverage60()
    ensures ArchiveSpec(Archives[3]) == CreateWords[6]
  {
    ArchiveNumbers();
  }

  lemma RraMin1()
    ensures ArchiveSpec(Archives[4]) == CreateWords[7]
  {
    ArchiveNumbers();
  }

  lemma RraMin6()
    ensures ArchiveSpec(Archives[5]) == CreateWords[8]
  {
    ArchiveNumbers();
  }

  lemma RraMin60()
    ensures ArchiveSpec(Archives[6]) == CreateWords[9]
  {
    ArchiveNumbers();
  }

  lemma RraMax1()
    ensures ArchiveSpec(Archives[7]) == CreateWords[10]
  {
    ArchiveNumbers();
  }

  lemma RraMax6()
    ensures ArchiveSpec(Archives[8]) == CreateWords[11]
  {
    ArchiveNumbers();
  }

  lemma RraMax60()
    ensures ArchiveSpec(Archives[9]) == CreateWords[12]
  {
    ArchiveNumbers();
  }

  /** The decimal renderings of the numbers in the schema. */
  lemma ArchiveNumbers()
    ensures Decimal(1) == "1" && Decimal(6) == "6" && Decimal(10) == "10" && Decimal(60) == "60"
    ensures Decimal(1008) == "1008" && Decimal(1440) == "1440" && Decimal(3600) == "3600"
    ensures Decimal(4320) == "4320" && Decimal(60480) == "60480"
  {
    assert Decimal(100) == "100";
    assert Decimal(144) == "144";
    assert Decimal(360) == "360";
    assert Decimal(432) == "432";
    assert Decimal(604) == "604";
    assert Decimal(6048) == "6048";
  }

  /**
    The last-value archive and the 60-step rollups keep seven days; the
    averages keep 12 hours, 24 hours and 7 days as the comment in `init`
    says; the single-step MIN and MAX archives keep only 10 hours.
   */
  lemma ArchiveRetentions()
    ensures |Archives| == 10
    ensures Retention(Archives[0]) == 7 * 24 * 3600
    ensures Retention(Archives[1]) == 12 * 3600
    ensures Retention(Archives[2]) == 24 * 3600
    ensures Retention(Archives[3]) == 7 * 24 * 3600
    ensures Retention(Archives[4]) == Retention(Archives[7]) == 10 * 3600
    ensures forall k :: 1 <= k < 10 && Archives[k].steps == 6 ==> Retention(Archives[k]) == 24 * 3600
    ensures forall k :: 1 <= k < 10 && Archives[k].steps == 60 ==> Retention(Archives[k]) == 7 * 24 * 3600
  {
  }

  // ---------------------------------------------------------------------------
  // The reading loop of `run`
  // ---------------------------------------------------------------------------

  /** How `run` ends: at the end of the stream, or on the first prefixed line missing a field. */
  datatype RunOutcome = Completed | Crashed(line: nat, missing: Field)

  datatype RunResult = RunResult(commands: seq<string>, outcome: RunOutcome)

  /** What `run` does from line `i` on: the update commands it issues and how it ends. */
  function RunFrom(rrdFile: string, lines: seq<string>, i: nat): RunResult
    requires i <= |lines|
    decreases |lines| - i
  {
    if i == |lines| then RunResult([], Completed)
    else
      match ParseLine(lines[i])
      case Skipped => RunFrom(rrdFile, lines, i + 1)
      case Missing(f) => RunResult([], Crashed(i, f))
      case Reading(power, ts) =>
        var rest := RunFrom(rrdFile, lines, i + 1);
        RunResult([UpdateCommand(rrdFile, power, ts)] + rest.commands, rest.outcome)
  }

  /** `run`: one update per accepted line, in input order, until the stream ends or a line crashes it. */
  method Run(rrdFile: string, lines: seq<string>) returns (commands: seq<string>, outcome: RunOutcome)
    ensures RunResult(commands, outcome) == RunFrom(rrdFile, lines, 0)
  {
    commands := [];
    var i := 0;
    while i < |lines|
      invariant i <= |lines|
      invariant RunFrom(rrdFile, lines, 0) == Prepend(commands, RunFrom(rrdFile, lines, i))
    {
      ghost var rest := RunFrom(rrdFile, lines, i + 1);
      var line := ParseLine(lines[i]);
      match line {
        case Skipped =>
        case Missing(f) =>
          return commands, Crashed(i, f);
        case Reading(power, ts) =>
          var update := UpdateCommand(rrdFile, power, ts);
          assert RunFrom(rrdFile, lines, i) == Prepend([update], rest);
          assert commands + ([update] + rest.commands) == (commands + [update]) + rest.commands;
          commands := commands + [update];
      }
      i := i + 1;
    }
    outcome := Completed;
  }

  function Prepend(commands: seq<string>, r: RunResult): RunResult
  {
    RunResult(commands + r.commands, r.outcome)
  }

  /** The power/timestamp pairs of the accepted lines, in order: an independent account of the loop. */
  function Readings(lines: seq<string>): seq<(string, string)>
  {
    if lines == [] then []
    else
      match ParseLine(lines[0])
      case Reading(power, ts) => [(power, ts)] + Readings(lines[1..])
      case _ => Readings(lines[1..])
  }

  function UpdateCommands(rrdFile: string, readings: seq<(string, string)>): seq<string>
  {
    if readings == [] then []
    else [UpdateCommand(rrdFile, readings[0].0, readings[0].1)] + UpdateCommands(rrdFile, readings[1..])
  }

  /** The first line, at or after `i`, on which `run` crashes. */
  ghost predicate CrashesAt(lines: seq<string>, i: nat, k: nat)
  {
    i <= k < |lines| && ParseLine(lines[k]).Missing?
    && forall j :: i <= j < k ==> !ParseLine(lines[j]).Missing?
  }

  /** When the loop crashes, it is on the first prefixed line that lacks a field, and for that field. */
  lemma {:induction false} CrashAtFirstMissing(rrdFile: string, lines: seq<string>, i: nat)
    requires i <= |lines|
    requires RunFrom(rrdFile, lines, i).outcome.Crashed?
    ensures CrashesAt(lines, i, RunFrom(rrdFile, lines, i).outcome.line)
    ensures ParseLine(lines[RunFrom(rrdFile, lines, i).outcome.line])
         == Missing(RunFrom(rrdFile, lines, i).outcome.missing)
    decreases |lines| - i
  {
    var line := ParseLine(lines[i]);
    if !line.Missing? {
      CrashAtFirstMissing(rrdFile, lines, i + 1);
    }
  }

  /** The loop runs to the end of the stream exactly when no prefixed line lacks a field. */
  lemma {:induction false} CompletesWithoutMissing(rrdFile: string, lines: seq<string>, i: nat)
    requires i <= |lines|
    ensures RunFrom(rrdFile, lines, i).outcome == Completed <==>
      forall j :: i <= j < |lines| ==> !ParseLine(lines[j]).Missing?
    decreases |lines| - i
  {
    if i < |lines| {
      var line := ParseLine(lines[i]);
      if !line.Missing? {
        CompletesWithoutMissing(rrdFile, lines, i + 1);
      }
    }
  }

  /** The commands issued are the update commands of the accepted lines before the crash, in order. */
  lemma {:induction false} RunIssuesReadings(rrdFile: string, lines: seq<string>, i: nat, stop: nat)
    requires i <= stop <= |lines|
    requires stop == |lines| || ParseLine(lines[stop]).Missing?
    requires forall j :: i <= j < stop ==> !ParseLine(lines[j]).Missing?
    ensures RunFrom(rrdFile, lines, i).commands == UpdateCommands(rrdFile, Readings(lines[i..stop]))
    decreases |lines| - i
  {
    if i < stop {
      RunIssuesReadings(rrdFile, lines, i + 1, stop);
      assert lines[i..stop][1..] == lines[i + 1..stop];
    } else if stop < |lines| {
      assert lines[i..stop] == [];
    }
  }

  /** Nothing after the line that crashes `run` is processed: appending more lines changes nothing. */
  lemma {:induction false} NothingAfterCrash(rrdFile: string, lines: seq<string>, more: seq<string>, i: nat)
    requires i <= |lines|
    requires RunFrom(rrdFile, lines, i).outcome.Crashed?
    ensures RunFrom(rrdFile, lines + more, i) == RunFrom(rrdFile, lines, i)
    decreases |lines| - i
  {
    assert (lines + more)[i] == lines[i];
    if !ParseLine(lines[i]).Missing? {
      NothingAfterCrash(rrdFile, lines, more, i + 1);
    }
  }

  /** A stream without any sensor line issues no update and completes. */
  lemma {:induction false} NoSensorLinesNoUpdates(rrdFile: string, lines: seq<string>, i: nat)
    requires i <= |lines|
    requires forall j :: i <= j < |lines| ==> !StartsWith(lines[j], SensorPrefix)
    ensures RunFrom(rrdFile, lines, i) == RunResult([], Completed)
    decreases |lines| - i
  {
    if i < |lines| {
      NoSensorLinesNoUpdates(rrdFile, lines, i + 1);
    }
  }

  /** Every command `run` issues is an update of the given file. */
  lemma {:induction false} RunIssuesOnlyUpdates(rrdFile: string, lines: seq<string>, i: nat)
    requires i <= |lines|
    ensures forall c :: c in RunFrom(rrdFile, lines, i).commands ==> StartsWith(c, UpdatePrefix(rrdFile))
    decreases |lines| - i
  {
    if i < |lines| {
      RunIssuesOnlyUpdates(rrdFile, lines, i + 1);
    }
  }

  // ---------------------------------------------------------------------------
  // `main`: create the database, or run the reader
  // ---------------------------------------------------------------------------

  /**
    With `--init` only the create command is issued and the reader is not
    started; otherwise only `run` executes and every issued command is an update.
   */
  method Launch(init: bool, rrdFile: string, lines: seq<string>) returns (issued: seq<string>, outcome: RunOutcome)
    ensures init ==> issued == [CreateCommand(rrdFile)] && outcome == Completed
    ensures !init ==> RunResult(issued, outcome) == RunFrom(rrdFile, lines, 0)
    ensures !init ==> forall c :: c in issued ==> StartsWith(c, UpdatePrefix(rrdFile))
  {
    if init {
      issued, outcome := [CreateCommand(rrdFile)], Completed;
    } else {
      issued, outcome := Run(rrdFile, lines);
      RunIssuesOnlyUpdates(rrdFile, lines, 0);
    }
  }
}
