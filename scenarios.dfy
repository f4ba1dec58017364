/**
 * Whole runs on small manifests: a missing file, a directory record next to a
 * file that checks out, and a manifest without its header. Each run is stated
 * for any record parser that reads the lines as intended, and then for
 * `ParseLine`.
 */
module Scenarios {
  import opened Wrappers
  import opened Strings
  import opened Numbers
  import opened ManifestLine
  import opened Verifier

  /** Forty lower-case hex digits. */
  const HEX_A: string := "aaaaaaaaaaaaaaaaaaaaaaaaaaaaaaaaaaaaaaaa"

  /** The twenty bytes `HEX_A` stands for. */
  const BYTES_A: seq<byte> := seq(20, _ => 0xAA)

  lemma HexA()
    ensures FromHexString(HEX_A) == Some(BYTES_A)
  {
    assert |HEX_A| == 40;
    assert forall i :: 0 <= i < |HEX_A| ==> HEX_A[i] == 'a';
    var d := FromHexString(HEX_A).value;
    assert |d| == 20;
    forall k | 0 <= k < 20 ensures d[k] == BYTES_A[k] {
      assert HEX_A[2 * k] == 'a' && HEX_A[2 * k + 1] == 'a';
    }
    assert d == BYTES_A;
  }

  /** The two file names the scenarios use have no white space to collapse. */
  lemma SampleNames()
    ensures IsNormalized("data") && IsNormalized("data/foo.bin")
  {
    PlainName("data");
    PlainName("data/foo.bin");
  }

  /** A name made of lower-case letters, `/` and `.` is normalized. */
  lemma PlainName(s: string)
    requires forall i :: 0 <= i < |s| ==> 'a' <= s[i] <= 'z' || s[i] == '/' || s[i] == '.'
    ensures IsNormalized(s)
  {
  }

  /** A record line with chunk count 1 and SHA-1 `HEX_A`. */
  function SampleLine(size: nat, flags: nat, name: string): string {
    JoinFive(IntText(size), "1", HEX_A, IntText(flags), name)
  }

  /** Such a line is a record line, and parses to its values. */
  lemma ParseSample(size: nat, flags: nat, name: string, line: string)
    requires size <= INT64_MAX && flags <= INT32_MAX
    requires name != [] && IsNormalized(name)
    requires line == SampleLine(size, flags, name)
    ensures !IsNullOrWhiteSpace(line)
    ensures ParseLine(line) == Success(Record(size, BYTES_A, flags, name))
  {
    HexA();
    assert IsToken("1");
    ParseLineText(Record(size, BYTES_A, flags, name), "1", HEX_A);
    IntTextIsToken(size);
    assert line[0] == IntText(size)[0];
  }

  /** A manifest listing one file that is not on disk, for any parser that reads
      its record line as that file: the file is counted as missing, its name is
      the one line of the side file, and the run exits with 0. */
  lemma MissingFileRunWith(fs: FileSystem, join: (string, string) -> string, sha1: seq<byte> -> seq<byte>,
                           parse: string -> Result<Record, ParseError>, line: string)
    requires join("game", "data/foo.bin") !in fs
    requires !IsNullOrWhiteSpace(line) && parse(line) == Success(Record(100, BYTES_A, 0, "data/foo.bin"))
    ensures RunSpec(["manifest.txt", "game"], Some(["Depot manifest", HEADER, line]), fs, join, sha1, parse)
        == RunResult(Exited(0),
                     [CannotGetLog(NotFound(join("game", "data/foo.bin"))), Summary(1, 1, 0, 0)],
                     Some(SideFile("manifest.txt-missing.txt", ["data/foo.bin"])))
  {
    var args := ["manifest.txt", "game"];
    var lines := ["Depot manifest", HEADER, line];
    var env := Env("game", fs, join, sha1, parse);
    assert args[0] + SIDE_SUFFIX == "manifest.txt-missing.txt";
    RunAfterHeader(args, lines, fs, join, sha1, parse, 1);
    assert lines[2..] == [] + [line];
    ScanStep(env, EMPTY, [], line);
    var t := Tally(1, 1, 0, 0, ["data/foo.bin"], [CannotGetLog(NotFound(join("game", "data/foo.bin")))]);
    assert Scan(env, EMPTY, lines[2..]) == Running(t);
    assert SummaryOf(t) == Summary(1, 1, 0, 0) by {
      Wrap32InRange(1);
    }
  }

  /** The same run with `ParseLine`. */
  lemma MissingFileRun(fs: FileSystem, join: (string, string) -> string, sha1: seq<byte> -> seq<byte>, line: string)
    requires join("game", "data/foo.bin") !in fs
    requires line == SampleLine(100, 0, "data/foo.bin")
    ensures RunSpec(["manifest.txt", "game"], Some(["Depot manifest", HEADER, line]), fs, join, sha1, ParseLine)
        == RunResult(Exited(0),
                     [CannotGetLog(NotFound(join("game", "data/foo.bin"))), Summary(1, 1, 0, 0)],
                     Some(SideFile("manifest.txt-missing.txt", ["data/foo.bin"])))
  {
    SampleNames();
    ParseSample(100, 0, "data/foo.bin", line);
    MissingFileRunWith(fs, join, sha1, ParseLine, line);
  }

  /** A directory record, then a file whose size and digest match, for any parser
      that reads the two lines that way: the directory is not counted, the file is
      counted once, nothing fails, and the side file stays empty. */
  lemma DirectoryAndGoodFileRunWith(fs: FileSystem, join: (string, string) -> string, sha1: seq<byte> -> seq<byte>,
                                    parse: string -> Result<Record, ParseError>, dir: string, file: string)
    requires join("game", "data/foo.bin") in fs
    requires fs[join("game", "data/foo.bin")].length == 100
    requires fs[join("game", "data/foo.bin")].content.Some?
    requires sha1(fs[join("game", "data/foo.bin")].content.value) == BYTES_A
    requires !IsNullOrWhiteSpace(dir) && parse(dir) == Success(Record(0, BYTES_A, 64, "data"))
    requires !IsNullOrWhiteSpace(file) && parse(file) == Success(Record(100, BYTES_A, 0, "data/foo.bin"))
    ensures RunSpec(["manifest.txt", "game"], Some([HEADER, dir, file]), fs, join, sha1, parse)
      == RunResult(Exited(0), [Summary(1, 0, 0, 0)], Some(SideFile("manifest.txt-missing.txt", [])))
  {
    var args := ["manifest.txt", "game"];
    var lines := [HEADER, dir, file];
    var env := Env("game", fs, join, sha1, parse);
    assert args[0] + SIDE_SUFFIX == "manifest.txt-missing.txt";
    RunAfterHeader(args, lines, fs, join, sha1, parse, 0);
    assert lines[1..] == [dir] + [file];
    assert [dir] == [] + [dir];
    ScanStep(env, EMPTY, [], dir);
    ScanStep(env, EMPTY, [dir], file);
    var t := Tally(1, 0, 0, 0, [], []);
    assert Scan(env, EMPTY, lines[1..]) == Running(t);
    assert SummaryOf(t) == Summary(1, 0, 0, 0) by {
      Wrap32InRange(1);
    }
  }

  /** The same run with `ParseLine`. */
  lemma DirectoryAndGoodFileRun(fs: FileSystem, join: (string, string) -> string, sha1: seq<byte> -> seq<byte>,
                                dir: string, file: string)
    requires join("game", "data/foo.bin") in fs
    requires fs[join("game", "data/foo.bin")].length == 100
    requires fs[join("game", "data/foo.bin")].content.Some?
    requires sha1(fs[join("game", "data/foo.bin")].content.value) == BYTES_A
    requires dir == SampleLine(0, 64, "data") && file == SampleLine(100, 0, "data/foo.bin")
    ensures RunSpec(["manifest.txt", "game"], Some([HEADER, dir, file]), fs, join, sha1, ParseLine)
      == RunResult(Exited(0), [Summary(1, 0, 0, 0)], Some(SideFile("manifest.txt-missing.txt", [])))
  {
    SampleNames();
    ParseSample(0, 64, "data", dir);
    ParseSample(100, 0, "data/foo.bin", file);
    DirectoryAndGoodFileRunWith(fs, join, sha1, ParseLine, dir, file);
  }

  /** A manifest whose header has its spacing collapsed: the header must match
      exactly, so the run exits with 1 and no summary. The side file has been
      created by then, and is empty. */
  lemma NoHeaderRun(fs: FileSystem, join: (string, string) -> string, sha1: seq<byte> -> seq<byte>)
    ensures RunSpec(["manifest.txt", "game"], Some(["Depot manifest", "Size Chunks File SHA Flags Name"]),
                    fs, join, sha1, ParseLine)
      == RunResult(Exited(1), [HeadersNotFound], Some(SideFile("manifest.txt-missing.txt", [])))
  {
    var args := ["manifest.txt", "game"];
    var lines := ["Depot manifest", "Size Chunks File SHA Flags Name"];
    assert |lines[0]| != |HEADER| && |lines[1]| != |HEADER|;
    assert forall j :: 0 <= j < |lines| ==> lines[j] != HEADER;
    assert args[0] + SIDE_SUFFIX == "manifest.txt-missing.txt";
    RunWithoutHeader(args, lines, fs, join, sha1, ParseLine);
  }

  /** A record line right after the header that the parser rejects: the run
      crashes before anything is counted, logged or written to the side file. */
  lemma MalformedFirstRecordRunWith(fs: FileSystem, join: (string, string) -> string, sha1: seq<byte> -> seq<byte>,
                                    parse: string -> Result<Record, ParseError>, line: string, e: ParseError)
    requires !IsNullOrWhiteSpace(line) && parse(line) == Failure(e)
    ensures RunSpec(["manifest.txt", "game"], Some([HEADER, line]), fs, join, sha1, parse)
      == RunResult(Crashed(MalformedRecord(e)), [], Some(SideFile("manifest.txt-missing.txt", [])))
  {
    var args := ["manifest.txt", "game"];
    var lines := [HEADER, line];
    assert args[0] + SIDE_SUFFIX == "manifest.txt-missing.txt";
    assert lines[1..1] == [];
    RunCrashesOnMalformedRecord(args, lines, fs, join, sha1, parse, 0, 1);
  }

  /** With `ParseLine`, a SHA-1 field of three hex digits is such a line. */
  lemma OddHexRun(fs: FileSystem, join: (string, string) -> string, sha1: seq<byte> -> seq<byte>, line: string)
    requires line == JoinFive(IntText(100), "1", "aaa", IntText(0), "data/foo.bin")
    ensures RunSpec(["manifest.txt", "game"], Some([HEADER, line]), fs, join, sha1, ParseLine)
      == RunResult(Crashed(MalformedRecord(BadSha1)), [], Some(SideFile("manifest.txt-missing.txt", [])))
  {
    SampleNames();
    assert IsToken("1") && IsToken("aaa");
    assert FromHexString("aaa").None?;
    ParseLineBadHex(100, "1", "aaa", 0, "data/foo.bin");
    IntTextIsToken(100);
    assert line[0] == IntText(100)[0];
    MalformedFirstRecordRunWith(fs, join, sha1, ParseLine, line, BadSha1);
  }
}
