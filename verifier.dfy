/**
 * `Main`: the argument check, the scan for the column header, and the pass over
 * the record lines that checks each listed file against the game directory,
 * counts the failures, logs them and writes the failing names to the side file
 * `<manifest>-missing.txt`.
 *
 * The file system is a map from paths to entries, SHA-1 and `Path.Combine` are
 * parameters, the manifest is its sequence of lines, and the console and the
 * side file are sequences the run appends to.
 */
module Verifier {
  import opened Wrappers
  import opened Strings
  import opened Numbers
  import opened ManifestLine

  /** The column header line after which the record lines start. */
  const HEADER: string := "          Size Chunks File SHA                                 Flags Name"

  /** The flags value of a directory record. */
  const DIRECTORY_FLAGS: int := 64

  /** What the side file's name adds to the manifest's. */
  const SIDE_SUFFIX: string := "-missing.txt"

  // ---------------------------------------------------------------- environment

  /** A file as the run sees it: the length `FileInfo.Length` reports, and the
      bytes a `FileStream` opened with `FileMode.Open` reads, or `None` when that
      open throws (the default access asks for writing as well as reading). */
  datatype FileEntry = FileEntry(length: nat, content: Option<seq<byte>>)

  /** The files reachable by path. A directory or an absent file is not in the map:
      `FileInfo.Length` throws for both. */
  type FileSystem = map<string, FileEntry>

  /** The exceptions the `try` block catches, by the step that raised them. */
  datatype IoFailure =
    | NotFound(path: string)    // FileInfo.Length
    | CannotOpen(path: string)  // new FileStream in CheckChecksum

  /** What one run checks against: the game directory `args[1]`, the files, the
      path join, the digest function and the record parser (`ParseLine` in a run). */
  datatype Env = Env(root: string, fs: FileSystem, join: (string, string) -> string, sha1: seq<byte> -> seq<byte>,
                     parse: string -> Result<Record, ParseError>)

  /** `CheckChecksum`: the digest of the file's bytes compared with the expected one,
      or the exception opening the file raises. */
  function CheckChecksum(env: Env, path: string, expected: seq<byte>): (r: Result<bool, IoFailure>)
    ensures r.Success? <==> path in env.fs && env.fs[path].content.Some?
    ensures r.Success? ==> (r.value <==> env.sha1(env.fs[path].content.value) == expected)
    ensures r.Failure? ==> r.error.path == path
  {
    if path !in env.fs then Failure(NotFound(path))
    else match env.fs[path].content
      case None => Failure(CannotOpen(path))
      case Some(bytes) => Success(env.sha1(bytes) == expected)
  }

  // ---------------------------------------------------------------- one file

  /** How the check of one non-directory record ends. */
  datatype Outcome =
    | Verified
    | SizeMismatch(expected: int, actual: nat)
    | Sha1Mismatch
    | CannotGet(failure: IoFailure)

  /** The body of the `try` block and its `catch`: the size is looked up first,
      and the checksum is computed only when the size matches. */
  function Classify(env: Env, rec: Record): (o: Outcome)
    ensures var path := env.join(env.root, rec.name);
      && (o == CannotGet(NotFound(path)) <==> path !in env.fs)
      && (o.SizeMismatch? <==> path in env.fs && env.fs[path].length != rec.size)
      && (o.SizeMismatch? ==> o.expected == rec.size && o.actual == env.fs[path].length)
      && (o.Sha1Mismatch? <==>
        path in env.fs && env.fs[path].length == rec.size && env.fs[path].content.Some?
        && env.sha1(env.fs[path].content.value) != rec.sha1)
      && (o == CannotGet(CannotOpen(path)) <==>
        path in env.fs && env.fs[path].length == rec.size && env.fs[path].content.None?)
      && (o == Verified <==>
        path in env.fs && env.fs[path].length == rec.size && env.fs[path].content.Some?
        && env.sha1(env.fs[path].content.value) == rec.sha1)
  {
    var path := env.join(env.root, rec.name);
    if path !in env.fs then CannotGet(NotFound(path))
    else if env.fs[path].length != rec.size then SizeMismatch(rec.size, env.fs[path].length)
    else match CheckChecksum(env, path, rec.sha1)
      case Failure(e) => CannotGet(e)
      case Success(same) => if same then Verified else Sha1Mismatch
  }

  /** When the size differs, neither the digest function nor the file's bytes
      have any say in the outcome: the checksum is never computed. */
  lemma SizeMismatchSkipsChecksum(env: Env, rec: Record, sha1: seq<byte> -> seq<byte>, content: Option<seq<byte>>)
    requires var path := env.join(env.root, rec.name);
      path in env.fs && env.fs[path].length != rec.size
    ensures var path := env.join(env.root, rec.name);
      var other := env.(sha1 := sha1, fs := env.fs[path := FileEntry(env.fs[path].length, content)]);
      Classify(other, rec) == Classify(env, rec) == SizeMismatch(rec.size, env.fs[path].length)
  {
  }

  // ---------------------------------------------------------------- the record pass

  /** What the console shows. */
  datatype Message =
    | Usage                                                   // wrong number of arguments
    | HeadersNotFound                                         // end of manifest before the header
    | SizeMismatchLog(name: string, expected: int, actual: nat)
    | Sha1MismatchLog(name: string)
    | CannotGetLog(failure: IoFailure)                         // "Cannot get the file: " + ex.Message
    | Summary(total: int32, missing: int32, sizeMismatch: int32, bad: int32)

  /** The exact counts of the record pass, the names written to the side file and
      the messages logged so far. */
  datatype Tally = Tally(total: nat, missing: nat, sizeMismatch: nat, bad: nat, side: seq<string>, log: seq<Message>)

  const EMPTY: Tally := Tally(0, 0, 0, 0, [], [])

  /** The pass either goes on or has been ended by a line the parser rejects. */
  datatype ScanState = Running(tally: Tally) | Aborted(tally: Tally, error: ParseError)

  /** A checked file's outcome added to the tally: a failure logs one message,
      writes the name to the side file and raises one counter. */
  function Account(t: Tally, name: string, o: Outcome): Tally {
    match o
    case Verified => t
    case SizeMismatch(expected, actual) =>
      t.(sizeMismatch := t.sizeMismatch + 1, side := t.side + [name], log := t.log + [SizeMismatchLog(name, expected, actual)])
    case Sha1Mismatch =>
      t.(bad := t.bad + 1, side := t.side + [name], log := t.log + [Sha1MismatchLog(name)])
    case CannotGet(e) =>
      t.(missing := t.missing + 1, side := t.side + [name], log := t.log + [CannotGetLog(e)])
  }

  /** One pass of the record loop. */
  function Step(env: Env, t: Tally, line: string): ScanState {
    if IsNullOrWhiteSpace(line) then Running(t)
    else match env.parse(line)
      case Failure(e) => Aborted(t, e)
      case Success(rec) =>
        if rec.flags == DIRECTORY_FLAGS then Running(t)
        else Running(Account(t.(total := t.total + 1), rec.name, Classify(env, rec)))
  }

  /** The record loop over `lines`, starting from tally `t`. */
  function Scan(env: Env, t: Tally, lines: seq<string>): ScanState
    decreases |lines|
  {
    if lines == [] then Running(t)
    else match Scan(env, t, lines[..|lines| - 1])
      case Aborted(t', e) => Aborted(t', e)
      case Running(t') => Step(env, t', lines[|lines| - 1])
  }

  /** The loop carried on over `lines` from a state. */
  function Continue(env: Env, st: ScanState, lines: seq<string>): ScanState {
    match st
    case Aborted(_, _) => st
    case Running(t) => Scan(env, t, lines)
  }

  /** Scanning two pieces one after the other is scanning them joined. */
  lemma {:induction false} ScanConcat(env: Env, t: Tally, a: seq<string>, b: seq<string>)
    ensures Scan(env, t, a + b) == Continue(env, Scan(env, t, a), b)
    decreases |b|
  {
    if b == [] {
      assert a + b == a;
    } else {
      var b' := b[..|b| - 1];
      assert (a + b)[..|a + b| - 1] == a + b';
      assert (a + b)[|a + b| - 1] == b[|b| - 1];
      ScanConcat(env, t, a, b');
    }
  }

  /** The loop's next pass. */
  lemma ScanStep(env: Env, t: Tally, a: seq<string>, line: string)
    requires Scan(env, t, a).Running?
    ensures Scan(env, t, a + [line]) == Step(env, Scan(env, t, a).tally, line)
  {
    assert (a + [line])[..|a|] == a;
  }

  /** A line that is empty or white space, and a directory record, changes nothing
      wherever it stands. */
  lemma SkippedLineIgnored(env: Env, t: Tally, a: seq<string>, line: string, b: seq<string>)
    requires IsNullOrWhiteSpace(line) || (env.parse(line).Success? && env.parse(line).value.flags == DIRECTORY_FLAGS)
    ensures Scan(env, t, a + [line] + b) == Scan(env, t, a + b)
  {
    ScanConcat(env, t, a + [line], b);
    ScanConcat(env, t, a, [line]);
    ScanConcat(env, t, a, b);
    assert [line][..0] == [];
  }

  /** A record line the parser rejects ends the pass with what was counted before
      it; the lines after it are never looked at. */
  lemma MalformedLineAborts(env: Env, t: Tally, a: seq<string>, line: string, b: seq<string>)
    requires Scan(env, t, a).Running?
    requires !IsNullOrWhiteSpace(line) && env.parse(line).Failure?
    ensures Scan(env, t, a + [line] + b) == Aborted(Scan(env, t, a).tally, env.parse(line).error)
  {
    ScanConcat(env, t, a + [line], b);
    ScanConcat(env, t, a, [line]);
    assert [line][..0] == [];
  }

  /** Once aborted, the pass stays aborted with the same tally. */
  lemma AbortedStays(env: Env, t: Tally, a: seq<string>, b: seq<string>)
    requires Scan(env, t, a).Aborted?
    ensures Scan(env, t, a + b) == Scan(env, t, a)
  {
    ScanConcat(env, t, a, b);
  }

  /** The counters agree with the side file and the log: each failure is counted
      once, the three failure counters add up to the names written and the
      messages logged, and they never exceed the number of files checked. */
  predicate Consistent(t: Tally) {
    t.missing + t.sizeMismatch + t.bad == |t.side| == |t.log| <= t.total
  }

  /** One line adds at most one checked file and at most one failure, no counter
      goes down, and a failure appends exactly that record's name to the side file. */
  lemma StepAddsAtMostOne(env: Env, t: Tally, line: string)
    ensures var t' := Step(env, t, line).tally;
      && t.total <= t'.total <= t.total + 1
      && t.missing <= t'.missing && t.sizeMismatch <= t'.sizeMismatch && t.bad <= t'.bad
      && t'.missing + t'.sizeMismatch + t'.bad - (t.missing + t.sizeMismatch + t.bad) == |t'.side| - |t.side|
      && t'.side[..|t.side|] == t.side
      && |t.side| <= |t'.side| <= |t.side| + (t'.total - t.total)
      && |t'.log| - |t.log| == |t'.side| - |t.side|
      && (|t'.side| > |t.side| ==> env.parse(line).Success? && t'.side[|t.side|] == env.parse(line).value.name)
  {
  }

  lemma {:induction false} ScanKeepsConsistent(env: Env, t: Tally, lines: seq<string>)
    requires Consistent(t)
    ensures Consistent(Scan(env, t, lines).tally)
    decreases |lines|
  {
    if lines != [] {
      ScanKeepsConsistent(env, t, lines[..|lines| - 1]);
      var st := Scan(env, t, lines[..|lines| - 1]);
      if st.Running? {
        StepAddsAtMostOne(env, st.tally, lines[|lines| - 1]);
      }
    }
  }

  // ---------------------------------------------------------------- reference definition

  /** A counted file and how its check ended. */
  datatype Checked = Checked(name: string, outcome: Outcome)

  /** The record lines read from the front: the files checked, in order, and the
      parse error that ended the pass, if any. */
  datatype Checks = Checks(files: seq<Checked>, fault: Option<ParseError>)

  function Checklist(env: Env, lines: seq<string>): Checks
    decreases |lines|
  {
    if lines == [] then Checks([], None)
    else if IsNullOrWhiteSpace(lines[0]) then Checklist(env, lines[1..])
    else match env.parse(lines[0])
      case Failure(e) => Checks([], Some(e))
      case Success(rec) =>
        var rest := Checklist(env, lines[1..]);
        if rec.flags == DIRECTORY_FLAGS then rest
        else Checks([Checked(rec.name, Classify(env, rec))] + rest.files, rest.fault)
  }

  function CountMissing(cs: seq<Checked>): nat {
    if cs == [] then 0 else (if cs[0].outcome.CannotGet? then 1 else 0) + CountMissing(cs[1..])
  }

  function CountSizeMismatch(cs: seq<Checked>): nat {
    if cs == [] then 0 else (if cs[0].outcome.SizeMismatch? then 1 else 0) + CountSizeMismatch(cs[1..])
  }

  function CountBad(cs: seq<Checked>): nat {
    if cs == [] then 0 else (if cs[0].outcome.Sha1Mismatch? then 1 else 0) + CountBad(cs[1..])
  }

  /** The names of the files that failed, in order. */
  function FailedNames(cs: seq<Checked>): seq<string> {
    if cs == [] then [] else (if cs[0].outcome.Verified? then [] else [cs[0].name]) + FailedNames(cs[1..])
  }

  /** The messages the failures log, in order. */
  function FailureLog(cs: seq<Checked>): seq<Message> {
    if cs == [] then []
    else
      var c := cs[0];
      (match c.outcome
       case Verified => []
       case SizeMismatch(expected, actual) => [SizeMismatchLog(c.name, expected, actual)]
       case Sha1Mismatch => [Sha1MismatchLog(c.name)]
       case CannotGet(e) => [CannotGetLog(e)])
      + FailureLog(cs[1..])
  }

  /** A tally with a list of checked files added. */
  function AddAll(t: Tally, cs: seq<Checked>): Tally {
    Tally(t.total + |cs|, t.missing + CountMissing(cs), t.sizeMismatch + CountSizeMismatch(cs),
          t.bad + CountBad(cs), t.side + FailedNames(cs), t.log + FailureLog(cs))
  }

  lemma AccountThenAddAll(t: Tally, c: Checked, cs: seq<Checked>)
    ensures AddAll(Account(t.(total := t.total + 1), c.name, c.outcome), cs) == AddAll(t, [c] + cs)
  {
    assert ([c] + cs)[1..] == cs;
  }

  /** The loop's tally is the reference count of the checklist: `totalFiles` counts
      the files checked, each failure counter counts the files with that outcome,
      the side file holds the failed names in order, and the pass aborts exactly
      when the checklist ends in a parse error. */
  lemma {:induction false} ScanMatchesChecklist(env: Env, t: Tally, lines: seq<string>)
    ensures var c := Checklist(env, lines);
      var st := Scan(env, t, lines);
      && st.tally == AddAll(t, c.files)
      && (st.Aborted? <==> c.fault.Some?)
      && (st.Aborted? ==> st.error == c.fault.value)
    decreases |lines|
  {
    if lines == [] {
      assert AddAll(t, []) == t;
    } else {
      var line := lines[0];
      var rest := lines[1..];
      assert lines == [line] + rest;
      ScanConcat(env, t, [line], rest);
      assert Scan(env, t, [line]) == Step(env, t, line) by {
        assert [line][..0] == [];
      }
      var st1 := Step(env, t, line);
      if st1.Running? {
        ScanMatchesChecklist(env, st1.tally, rest);
        if !IsNullOrWhiteSpace(line) && env.parse(line).value.flags != DIRECTORY_FLAGS {
          var rec := env.parse(line).value;
          AccountThenAddAll(t, Checked(rec.name, Classify(env, rec)), Checklist(env, rest).files);
        }
      } else {
        assert AddAll(t, []) == t;
      }
    }
  }

  /** Every checked file fails in at most one way, so the three failure counts add
      up to the failed names and never exceed the files checked. */
  lemma {:induction false} FailureCountsAddUp(cs: seq<Checked>)
    ensures CountMissing(cs) + CountSizeMismatch(cs) + CountBad(cs) == |FailedNames(cs)| == |FailureLog(cs)| <= |cs|
  {
    if cs != [] {
      FailureCountsAddUp(cs[1..]);
    }
  }

  // ---------------------------------------------------------------- the header

  /** Where the first header line stands. */
  function FindHeader(lines: seq<string>): (r: Option<nat>)
    ensures r.Some? ==> r.value < |lines| && lines[r.value] == HEADER
    ensures r.Some? ==> forall j :: 0 <= j < r.value ==> lines[j] != HEADER
    ensures r.None? <==> forall j :: 0 <= j < |lines| ==> lines[j] != HEADER
    decreases |lines|
  {
    if lines == [] then None
    else if lines[0] == HEADER then Some(0)
    else match FindHeader(lines[1..])
      case None => None
      case Some(i) => Some(i + 1)
  }

  // ---------------------------------------------------------------- the whole run

  /** What makes a run end other than through `Environment.Exit` or returning. */
  datatype Fault =
    | ManifestUnreadable              // new StreamReader(args[0]) throws
    | MalformedRecord(error: ParseError)

  datatype Status = Exited(code: int) | Crashed(fault: Fault)

  /** The side file and the names written to it. */
  datatype SideFile = SideFile(path: string, names: seq<string>)

  datatype RunResult = RunResult(status: Status, console: seq<Message>, side: Option<SideFile>)

  /** The counters' values at the end, as the `int` variables hold them. */
  function SummaryOf(t: Tally): Message {
    Summary(Wrap32(t.total), Wrap32(t.missing), Wrap32(t.sizeMismatch), Wrap32(t.bad))
  }

  /** The run of `Main` on `args`, `manifest` being the lines of the file `args[0]`
      names (`None` when it cannot be opened) and `parse` the record parser. */
  function RunSpec(args: seq<string>, manifest: Option<seq<string>>, fs: FileSystem,
                   join: (string, string) -> string, sha1: seq<byte> -> seq<byte>,
                   parse: string -> Result<Record, ParseError>): RunResult
  {
    if |args| != 2 then RunResult(Exited(1), [Usage], None)
    else if manifest.None? then RunResult(Crashed(ManifestUnreadable), [], None)
    else
      var lines := manifest.value;
      var sidePath := args[0] + SIDE_SUFFIX;
      match FindHeader(lines)
      case None => RunResult(Exited(1), [HeadersNotFound], Some(SideFile(sidePath, [])))
      case Some(h) => Conclude(sidePath, Scan(Env(args[1], fs, join, sha1, parse), EMPTY, lines[h + 1..]))
  }

  /** How the run ends once the record pass is over: a crash on a parse error, or
      the summary and exit code 0. */
  function Conclude(sidePath: string, st: ScanState): RunResult {
    match st
    case Aborted(t, e) => RunResult(Crashed(MalformedRecord(e)), t.log, Some(SideFile(sidePath, t.side)))
    case Running(t) => RunResult(Exited(0), t.log + [SummaryOf(t)], Some(SideFile(sidePath, t.side)))
  }

  /** The first loop of `Main`: read lines until the header. */
  method ReadUntilHeader(input: seq<string>) returns (found: Option<nat>)
    ensures found == FindHeader(input)
  {
    var next := 0;
    while true
      invariant 0 <= next <= |input|
      invariant forall j :: 0 <= j < next ==> input[j] != HEADER
      decreases |input| - next
    {
      if next == |input| {
        return None;
      }
      var line := input[next];
      next := next + 1;
      if line == HEADER {
        break;
      }
    }
    return Some(next - 1);
  }

  /** The `try` block and its `catch` for one record. */
  method CheckFile(env: Env, rec: Record) returns (outcome: Outcome)
    ensures outcome == Classify(env, rec)
  {
    var path := env.join(env.root, rec.name);
    if path !in env.fs {
      return CannotGet(NotFound(path));
    }
    var realFileSize := env.fs[path].length;
    if realFileSize != rec.size {
      return SizeMismatch(rec.size, realFileSize);
    }
    var checked := CheckChecksum(env, path, rec.sha1);
    if checked.Failure? {
      return CannotGet(checked.error);
    }
    if !checked.value {
      return Sha1Mismatch;
    }
    return Verified;
  }

  /** The four `int` counters of the second loop of `Main`. */
  datatype Counters = Counters(totalFiles: int32, missingFiles: int32, sizeMismatchFiles: int32, badFiles: int32)

  /** The second loop of `Main`: check every record line of `input` from `start` on. */
  method CheckRecords(env: Env, input: seq<string>, start: nat)
    returns (counters: Counters, missingFilesOutput: seq<string>, console: seq<Message>, fault: Option<ParseError>)
    requires start <= |input|
    ensures var st := Scan(env, EMPTY, input[start..]);
      && missingFilesOutput == st.tally.side && console == st.tally.log
      && (fault.None? <==> st.Running?)
      && (st.Aborted? ==> fault == Some(st.error))
      && (st.Running? ==> counters == Counters(Wrap32(st.tally.total), Wrap32(st.tally.missing),
                                               Wrap32(st.tally.sizeMismatch), Wrap32(st.tally.bad)))
  {
    var totalFiles: int32, sizeMismatchFiles: int32, badFiles: int32, missingFiles: int32 := 0, 0, 0, 0;
    missingFilesOutput, console := [], [];
    ghost var t := EMPTY;
    var next := start;
    while next < |input|
      invariant start <= next <= |input|
      invariant Scan(env, EMPTY, input[start..next]) == Running(t)
      invariant t.side == missingFilesOutput && t.log == console
      invariant totalFiles == Wrap32(t.total) && missingFiles == Wrap32(t.missing)
      invariant sizeMismatchFiles == Wrap32(t.sizeMismatch) && badFiles == Wrap32(t.bad)
      decreases |input| - next
    {
      var line := input[next];
      ghost var seen := input[start..next];
      next := next + 1;
      assert input[start..next] == seen + [line];
      ScanStep(env, EMPTY, seen, line);
      if IsNullOrWhiteSpace(line) {
        continue;
      }
      var parsed := env.parse(line);
      if parsed.Failure? {
        assert input[start..] == input[start..next] + input[next..];
        AbortedStays(env, EMPTY, input[start..next], input[next..]);
        counters := Counters(totalFiles, missingFiles, sizeMismatchFiles, badFiles);
        return counters, missingFilesOutput, console, Some(parsed.error);
      }
      var rec := parsed.value;
      if rec.flags == DIRECTORY_FLAGS {
        continue;
      }
      totalFiles := Inc32(totalFiles);
      var outcome := CheckFile(env, rec);
      match outcome {
        case Verified =>
        case SizeMismatch(expected, actual) =>
          console := console + [SizeMismatchLog(rec.name, expected, actual)];
          missingFilesOutput := missingFilesOutput + [rec.name];
          sizeMismatchFiles := Inc32(sizeMismatchFiles);
        case Sha1Mismatch =>
          console := console + [Sha1MismatchLog(rec.name)];
          missingFilesOutput := missingFilesOutput + [rec.name];
          badFiles := Inc32(badFiles);
        case CannotGet(e) =>
          console := console + [CannotGetLog(e)];
          missingFilesOutput := missingFilesOutput + [rec.name];
          missingFiles := Inc32(missingFiles);
      }
      t := Account(t.(total := t.total + 1), rec.name, outcome);
    }
    assert input[start..next] == input[start..];
    counters := Counters(totalFiles, missingFiles, sizeMismatchFiles, badFiles);
    fault := None;
  }

  /** `Main`, with the record parser passed in. */
  method Run(args: seq<string>, manifest: Option<seq<string>>, fs: FileSystem,
             join: (string, string) -> string, sha1: seq<byte> -> seq<byte>,
             parse: string -> Result<Record, ParseError>) returns (r: RunResult)
    ensures r == RunSpec(args, manifest, fs, join, sha1, parse)
  {
    if |args| != 2 {
      return RunResult(Exited(1), [Usage], None);
    }
    if manifest.None? {
      return RunResult(Crashed(ManifestUnreadable), [], None);
    }
    var input := manifest.value;
    var sidePath := args[0] + SIDE_SUFFIX;
    var found := ReadUntilHeader(input);
    if found.None? {
      return RunResult(Exited(1), [HeadersNotFound], Some(SideFile(sidePath, [])));
    }
    var env := Env(args[1], fs, join, sha1, parse);
    var counters, missingFilesOutput, console, fault := CheckRecords(env, input, found.value + 1);
    if fault.Some? {
      return RunResult(Crashed(MalformedRecord(fault.value)), console, Some(SideFile(sidePath, missingFilesOutput)));
    }
    var summary := Summary(counters.totalFiles, counters.missingFiles, counters.sizeMismatchFiles, counters.badFiles);
    return RunResult(Exited(0), console + [summary], Some(SideFile(sidePath, missingFilesOutput)));
  }

  /** `Main` as the program has it: the records are parsed by `ParseLine`. */
  method VerifyGame(args: seq<string>, manifest: Option<seq<string>>, fs: FileSystem,
                    join: (string, string) -> string, sha1: seq<byte> -> seq<byte>) returns (r: RunResult)
    ensures r == RunSpec(args, manifest, fs, join, sha1, ParseLine)
  {
    r := Run(args, manifest, fs, join, sha1, ParseLine);
  }

  // ---------------------------------------------------------------- properties of a run

  /** Without the header line the run stops with exit code 1 before any record is
      looked at; the side file has already been created, and stays empty. */
  lemma RunWithoutHeader(args: seq<string>, lines: seq<string>, fs: FileSystem,
                         join: (string, string) -> string, sha1: seq<byte> -> seq<byte>,
                         parse: string -> Result<Record, ParseError>)
    requires |args| == 2
    requires forall j :: 0 <= j < |lines| ==> lines[j] != HEADER
    ensures RunSpec(args, Some(lines), fs, join, sha1, parse)
      == RunResult(Exited(1), [HeadersNotFound], Some(SideFile(args[0] + SIDE_SUFFIX, [])))
  {
  }

  /** Nothing before the first header line is parsed or counted: the run is the
      same with the preamble dropped. */
  lemma RunIgnoresPreamble(args: seq<string>, pre: seq<string>, body: seq<string>, fs: FileSystem,
                           join: (string, string) -> string, sha1: seq<byte> -> seq<byte>,
                           parse: string -> Result<Record, ParseError>)
    requires forall j :: 0 <= j < |pre| ==> pre[j] != HEADER
    ensures RunSpec(args, Some(pre + [HEADER] + body), fs, join, sha1, parse)
      == RunSpec(args, Some([HEADER] + body), fs, join, sha1, parse)
  {
    var lines := pre + [HEADER] + body;
    assert lines[|pre|] == HEADER;
    assert FindHeader(lines) == Some(|pre|);
    assert lines[|pre| + 1..] == body;
    assert ([HEADER] + body)[1..] == body;
  }

  /** A run that gets through the manifest exits with code 0 and logs one message
      per failed file, then the summary with the four counters; the side file then
      holds exactly the failed files' names, in order, and the counters are the
      reference counts of the records after the header, wrapped to C# `int`. */
  lemma RunCountsFailures(args: seq<string>, lines: seq<string>, fs: FileSystem,
                          join: (string, string) -> string, sha1: seq<byte> -> seq<byte>,
                          parse: string -> Result<Record, ParseError>, h: nat)
    requires |args| == 2 && h < |lines| && lines[h] == HEADER
    requires forall j :: 0 <= j < h ==> lines[j] != HEADER
    requires Checklist(Env(args[1], fs, join, sha1, parse), lines[h + 1..]).fault.None?
    ensures var cs := Checklist(Env(args[1], fs, join, sha1, parse), lines[h + 1..]).files;
      RunSpec(args, Some(lines), fs, join, sha1, parse) == RunResult(
        Exited(0),
        FailureLog(cs) + [Summary(Wrap32(|cs|), Wrap32(CountMissing(cs)), Wrap32(CountSizeMismatch(cs)), Wrap32(CountBad(cs)))],
        Some(SideFile(args[0] + SIDE_SUFFIX, FailedNames(cs))))
  {
    var env := Env(args[1], fs, join, sha1, parse);
    var body := lines[h + 1..];
    var cs := Checklist(env, body).files;
    RunAfterHeader(args, lines, fs, join, sha1, parse, h);
    assert Scan(env, EMPTY, body) == Running(AddAll(EMPTY, cs)) by {
      ScanMatchesChecklist(env, EMPTY, body);
    }
    assert AddAll(EMPTY, cs) == Tally(|cs|, CountMissing(cs), CountSizeMismatch(cs), CountBad(cs), FailedNames(cs), FailureLog(cs));
  }

  /** Once the header has been found, the run is the record pass over the lines after it. */
  lemma RunAfterHeader(args: seq<string>, lines: seq<string>, fs: FileSystem,
                       join: (string, string) -> string, sha1: seq<byte> -> seq<byte>,
                       parse: string -> Result<Record, ParseError>, h: nat)
    requires |args| == 2 && h < |lines| && lines[h] == HEADER
    requires forall j :: 0 <= j < h ==> lines[j] != HEADER
    ensures RunSpec(args, Some(lines), fs, join, sha1, parse)
      == Conclude(args[0] + SIDE_SUFFIX, Scan(Env(args[1], fs, join, sha1, parse), EMPTY, lines[h + 1..]))
  {
    assert FindHeader(lines) == Some(h);
  }

  /** A record line after the header that the parser rejects crashes the run, with
      the failures before it already logged and written, and none after it. */
  lemma RunCrashesOnMalformedRecord(args: seq<string>, lines: seq<string>, fs: FileSystem,
                                    join: (string, string) -> string, sha1: seq<byte> -> seq<byte>,
                                    parse: string -> Result<Record, ParseError>, h: nat, k: nat)
    requires |args| == 2 && h < k < |lines| && lines[h] == HEADER
    requires forall j :: 0 <= j < h ==> lines[j] != HEADER
    requires Scan(Env(args[1], fs, join, sha1, parse), EMPTY, lines[h + 1..k]).Running?
    requires !IsNullOrWhiteSpace(lines[k]) && parse(lines[k]).Failure?
    ensures var t := Scan(Env(args[1], fs, join, sha1, parse), EMPTY, lines[h + 1..k]).tally;
      RunSpec(args, Some(lines), fs, join, sha1, parse)
        == RunResult(Crashed(MalformedRecord(parse(lines[k]).error)), t.log, Some(SideFile(args[0] + SIDE_SUFFIX, t.side)))
  {
    var env := Env(args[1], fs, join, sha1, parse);
    RunAfterHeader(args, lines, fs, join, sha1, parse, h);
    assert lines[h + 1..] == lines[h + 1..k] + [lines[k]] + lines[k + 1..];
    MalformedLineAborts(env, EMPTY, lines[h + 1..k], lines[k], lines[k + 1..]);
  }
}
