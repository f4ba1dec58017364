# SteamGameVerifier in Dafny

SteamGameVerifier checks an installed Steam game against a depot manifest, the
text file the Steam console writes for each depot. The program takes two
arguments: the manifest and the game directory. It skips the manifest's
preamble up to the exact column-header line. It then parses every record line
after the header into (size, SHA-1, flags, name). Directory records
(`flags == 64`) are skipped. Every other record is checked against the game
directory, size first and SHA-1 second. Failures are printed and counted, and
the failing names go to the side file `<manifest>-missing.txt`. A summary line
ends the run.

The project models that behaviour in six modules, each tied to the source:

- `Wrappers`: the `Option` and `Result` types.
- `Strings`: the .NET string operations `ParseLine` is built from:
  - `char.IsWhiteSpace` (the same set as the regex class `\s`);
  - `string.IsNullOrWhiteSpace` and `string.Trim`;
  - `Regex.Replace(s, @"\s+", " ")`;
  - `string.Split(' ', count)`;
  - `Words`, a line's maximal runs of non-white-space characters, as an
    independent description of what trimming and collapsing leave.
- `Numbers`:
  - `long.Parse` and `int.Parse`: an optional sign and decimal digits within range;
  - `Convert.FromHexString`, with `ToHexString` as its partner;
  - the wrap-around of the C# `int` counters (`Inc32`, `Wrap32`).
- `ManifestLine`: `ParseLine`, with its error cases as a `ParseError` value, and
  the lemmas that pin it down:
  - which lines it accepts;
  - how the name keeps the rest of the line;
  - that formatting a record and parsing it gives the record back.
- `Verifier`: `CheckChecksum` and the two loops of `Main`.
  - Each loop is a method with local counters and an appended output sequence:
    `ReadUntilHeader` and `CheckRecords`.
  - Each method is proved against a functional specification: `FindHeader` for the
    header scan, and the left fold `Scan` of `Step` for the record pass.
  - The whole run is `Run`, specified by `RunSpec`. `VerifyGame` is `Run` with `ParseLine`.
  - Properties of the record pass are lemmas about `Scan`. One of them relates `Scan`
    to an independent front-to-back reference definition (`Checklist`, `AddAll`).
- `Scenarios`: whole runs on small manifests. They cover a missing file, a
  directory next to a good file, a manifest without the exact header, and a record
  whose SHA-1 has an odd number of hex digits.

How the environment is represented:

- **The file system** is a `map` from paths to entries. An entry holds the length
  `FileInfo.Length` reports. It also holds the bytes, or `None` when opening the
  file with `FileMode.Open` throws.
- **Passed in as parameters:** SHA-1 (`sha1`), `Path.Combine` (`join`) and the
  record parser (`parse`, which is `ParseLine` in `VerifyGame`).
- **The manifest** is its sequence of lines, or `None` when it cannot be opened.
- **Outputs:** the console and the side file are sequences the run appends to.
- **How a run ends:** `Environment.Exit(code)` is `Exited(code)`. An exception
  that escapes `Main` is `Crashed(fault)`.

### Behaviour of the code worth knowing

- **Side file without a header:** the side file is created (line 16) before the
  header scan. A manifest without the header therefore leaves an empty side file
  behind (`RunWithoutHeader`).
- **Uncaught exceptions:** a malformed record line and an unreadable manifest
  raise exceptions that nothing catches, so the run crashes (`Crashed`). The only
  `Environment.Exit` calls are for the argument count and the missing header.
- **SHA-1 field length:** `Convert.FromHexString` accepts any even number of hex
  digits, so SHA-1 fields of any even length parse (`ParseLineText`, `FromHexString`).
- **Negative sizes:** `long.Parse` accepts a sign, so a negative size parses. A
  record with a negative size is counted missing when its file is not on disk,
  because `FileInfo.Length` throws first (lines 47 and 64-68). Otherwise it fails
  its size check, because a file's length is never negative.
- **Exact header match:** the header must match character for character. A header
  with its spacing collapsed is not recognised (`NoHeaderRun`).
- **Directory lines:** they are parsed before they are skipped, so a malformed
  directory line crashes the run too. The flags test is the equality `flags == 64`.
- **Read-only files:** the checksum opens the file with `FileMode.Open` and the
  default read-write access. A file that can be sized but not opened for writing
  is therefore counted as missing (`CannotOpen`).

## Model

| member | source | states |
|---|---|---|
| Strings.TrimStart | SteamGameVerifier/Program.cs:84 | the result is a suffix of the string, everything dropped is white space, and the result does not start with white space |
| Strings.TrimEnd | SteamGameVerifier/Program.cs:84 | the result is a prefix of the string, everything dropped is white space, and the result does not end with white space |
| Strings.Trim | SteamGameVerifier/Program.cs:84 | the result is the slice `s[k..k+|r|]` of the string with only white space before and after it, has no white space at either end, keeps every visible character in order, is empty exactly for a blank line, and leaves a trimmed string unchanged |
| Strings.TrimFramed | SteamGameVerifier/Program.cs:84 | trimming cuts the string into blank text, the result and blank text, at the position the leading white space ends |
| Strings.CollapseWhiteSpace | SteamGameVerifier/Program.cs:84 | after `\s+` → `" "` the only white space left is the plain space, never two in a row, and the first character is white space exactly when it was before |
| Strings.CollapseLast | SteamGameVerifier/Program.cs:84 | collapsing keeps white space at the end exactly when the string ended in white space |
| Strings.CollapseVisible | SteamGameVerifier/Program.cs:84 | collapsing drops or adds no visible character |
| Strings.CollapseIdentity | SteamGameVerifier/Program.cs:84 | a string already collapsed is left as it is |
| Strings.Normalize | SteamGameVerifier/Program.cs:84 | trim-then-collapse gives a normalized line with the same visible characters, empty exactly for a blank line, and is the identity on normalized lines |
| Strings.Words | SteamGameVerifier/Program.cs:84 | a line's words, its maximal runs of non-white-space characters front to back, are tokens, and there are none exactly for a blank line |
| Strings.WordsOfToken | SteamGameVerifier/Program.cs:84 | a token is a single word |
| Strings.WordsBlankPrefix | SteamGameVerifier/Program.cs:84 | blank text in front adds no word |
| Strings.WordsBlankSuffix | SteamGameVerifier/Program.cs:84 | blank text behind adds no word |
| Strings.WordsSplit | SteamGameVerifier/Program.cs:84 | any non-empty run of white space separates the words before it from the words after it |
| Strings.WordsSpaced | SteamGameVerifier/Program.cs:84 | tokens each followed by a non-empty blank gap are the first words of the text |
| Strings.WordsTrimStart | SteamGameVerifier/Program.cs:84 | dropping the leading white space keeps the words |
| Strings.WordsTrimEnd | SteamGameVerifier/Program.cs:84 | dropping the trailing white space keeps the words |
| Strings.WordsTrim | SteamGameVerifier/Program.cs:84 | `Trim` keeps the words |
| Strings.CollapseWords | SteamGameVerifier/Program.cs:84 | on a trimmed string, `\s+` → `" "` gives exactly its words joined by single spaces |
| Strings.NormalizeWords | SteamGameVerifier/Program.cs:84 | what `ParseLine` splits is the line's words joined by single spaces, for every line |
| Strings.Split | SteamGameVerifier/Program.cs:84 | `Split(' ', count)` gives between 1 and `count` parts |
| Strings.SplitJoin | SteamGameVerifier/Program.cs:84 | joining the parts with single spaces gives the string back |
| Strings.SplitNoSpace | SteamGameVerifier/Program.cs:84 | every part but the last holds no space, and the last holds none either when fewer than `count` parts result |
| Strings.SplitLength | SteamGameVerifier/Program.cs:84 | the number of parts is the number of spaces plus one, capped at `count` |
| Numbers.ParseInteger | SteamGameVerifier/Program.cs:88-90 | a parsed value lies in the type's range |
| Numbers.IntTextValue | SteamGameVerifier/Program.cs:88-90 | the decimal rendering of any integer is integer text with that value |
| Numbers.ParseIntText | SteamGameVerifier/Program.cs:88-90 | parsing the decimal rendering of any in-range integer gives the integer back |
| Numbers.ParseIntTextOutOfRange | SteamGameVerifier/Program.cs:88-90 | the rendering of an integer outside the type's range is rejected, as the `OverflowException` does |
| Numbers.ParseIntegerNonDigit | SteamGameVerifier/Program.cs:88-90 | a character that is not a digit, anywhere after the optional sign, is rejected, as the `FormatException` does |
| Numbers.ParseIntegerNoDigits | SteamGameVerifier/Program.cs:88-90 | the empty text and a lone sign are rejected |
| Numbers.FromHexString | SteamGameVerifier/Program.cs:89 | decoding succeeds exactly for an even number of hex digits, gives half as many bytes as digits, and byte k is digits 2k and 2k+1, high digit first |
| Numbers.ToHexStringBytes | SteamGameVerifier/Program.cs:89 | each byte's hex rendering is two digits that stand for that byte |
| Numbers.HexRoundTrip | SteamGameVerifier/Program.cs:89 | decoding the hex text of any byte array gives the array back |
| Numbers.Wrap32InRange | SteamGameVerifier/Program.cs:41 | up to `int.MaxValue` increments the C# `int` counter holds the exact count |
| Numbers.Wrap32Modulo | SteamGameVerifier/Program.cs:41 | past that the counter holds the count modulo 2^32, moved into the `int` range |
| ManifestLine.ParseLine | SteamGameVerifier/Program.cs:81-92 | the parse fails with `WrongFieldCount` exactly when the normalized line has fewer than five fields; a parsed name is non-empty, with no white space at either end, no white space but single plain spaces |
| ManifestLine.ParseLineFields | SteamGameVerifier/Program.cs:84-91 | the parse succeeds exactly when there are five fields and the size, hex and flags conversions succeed; then the first four fields are tokens, the five fields joined with single spaces rebuild the normalized line, size, SHA-1 and flags are the values the conversions of fields 0, 2 and 3 give, and the SHA-1 has half as many bytes as its field has digits |
| ManifestLine.FiveFields | SteamGameVerifier/Program.cs:84-86 | a normalized line that splits into five parts is four tokens and a non-empty normalized rest, joined with single spaces |
| ManifestLine.TokenFields | SteamGameVerifier/Program.cs:84 | four tokens and a normalized rest joined with spaces split back into exactly those five fields |
| ManifestLine.ParseLineText | SteamGameVerifier/Program.cs:84-91 | a line made of a record's rendered size, any chunk token, any hex text of its SHA-1, its flags and its name parses to that record, name kept verbatim with its spaces |
| ManifestLine.ParseLineWords | SteamGameVerifier/Program.cs:84-91 | a line whose words are a record's rendered size, a chunk token, the hex of its SHA-1, its flags and then a name's words parses to that record, the name being those words joined by single spaces |
| ManifestLine.ParsePaddedLine | SteamGameVerifier/Program.cs:84-91 | the four fields separated from what follows by any non-empty runs of white space, with any blank text before and after the line, parse to the record |
| ManifestLine.ParseLineBadHex | SteamGameVerifier/Program.cs:89 | a record-shaped line whose SHA-1 field does not decode is rejected with `BadSha1` |
| ManifestLine.FormatRoundTrip | SteamGameVerifier/Program.cs:84-91 | formatting a record and parsing the line gives the record back |
| ManifestLine.BlankLineFails | SteamGameVerifier/Program.cs:84-86 | a blank line fails with `WrongFieldCount` |
| Verifier.CheckChecksum | SteamGameVerifier/Program.cs:100-106 | the digest comparison succeeds exactly when the file can be opened, and then answers whether the file's SHA-1 equals the expected one; a failure names the path |
| Verifier.Classify | SteamGameVerifier/Program.cs:43-69 | a path not on disk is missing; a size difference is a size mismatch carrying both sizes; a SHA-1 mismatch happens exactly when the sizes agree, the file opens and its digest differs; a file unopenable at equal size is missing; the file is verified exactly when sizes and digests agree |
| Verifier.SizeMismatchSkipsChecksum | SteamGameVerifier/Program.cs:47-62 | when the size differs the outcome depends neither on the digest function nor on the file's bytes: the checksum is never computed |
| Verifier.CheckFile | SteamGameVerifier/Program.cs:46-62 | the size-then-checksum steps give the outcome `Classify` specifies |
| Verifier.ScanConcat | SteamGameVerifier/Program.cs:32-70 | the record pass over two pieces is the pass over the first continued over the second |
| Verifier.ScanStep | SteamGameVerifier/Program.cs:32-70 | one more line is one more loop iteration |
| Verifier.SkippedLineIgnored | SteamGameVerifier/Program.cs:35-40 | a blank line or a directory record, anywhere in the body, changes nothing |
| Verifier.MalformedLineAborts | SteamGameVerifier/Program.cs:38 | a record line the parser rejects ends the pass with the tally of the lines before it, and no later line is looked at |
| Verifier.AbortedStays | SteamGameVerifier/Program.cs:38 | once aborted, further lines change nothing |
| Verifier.StepAddsAtMostOne | SteamGameVerifier/Program.cs:35-69 | one line counts at most one file and at most one failure, no counter goes down; a failure appends exactly that record's name to the side file and one log message |
| Verifier.ScanKeepsConsistent | SteamGameVerifier/Program.cs:41-69 | the three failure counters always add up to the names written and the messages logged, never more than `totalFiles` |
| Verifier.ScanMatchesChecklist | SteamGameVerifier/Program.cs:32-70 | the loop's tally equals the reference count of the front-to-back checklist, and it aborts exactly when the checklist ends in a parse error, with that error |
| Verifier.FailureCountsAddUp | SteamGameVerifier/Program.cs:41-69 | in the reference count each file fails in at most one way, so the failure counts add up to the failed names and to the log, never above the files checked |
| Verifier.FindHeader | SteamGameVerifier/Program.cs:19-29 | the result is the first line equal to the header literal, and `None` exactly when no line is |
| Verifier.ReadUntilHeader | SteamGameVerifier/Program.cs:19-29 | the header loop stops at the first header line, or reports the end of input |
| Verifier.CheckRecords | SteamGameVerifier/Program.cs:31-70 | the record loop writes the pass's side-file names and log; it reports a parse error exactly when the pass aborts, and otherwise leaves the four `int` counters at the pass's counts wrapped to 32 bits |
| Verifier.Run | SteamGameVerifier/Program.cs:6-73 | `Main` with any record parser behaves as `RunSpec`: usage error, unreadable manifest, missing header, crash on a malformed record, or the summary after the pass |
| Verifier.VerifyGame | SteamGameVerifier/Program.cs:6-73 | `Main` with `ParseLine` behaves as `RunSpec` |
| Verifier.RunWithoutHeader | SteamGameVerifier/Program.cs:16-29 | without the header line the run exits with 1 and prints no summary; no record is parsed, and the side file exists and is empty |
| Verifier.RunIgnoresPreamble | SteamGameVerifier/Program.cs:19-29 | the lines before the first header are never parsed or counted: dropping them changes nothing |
| Verifier.RunAfterHeader | SteamGameVerifier/Program.cs:19-32 | once the header is found the run is the record pass over the lines after it |
| Verifier.RunCountsFailures | SteamGameVerifier/Program.cs:31-72 | a run that gets through the manifest exits with 0, logs one message per failed file in order, then the summary with the reference counts wrapped to `int`, and leaves exactly the failed names, in order, in the side file |
| Verifier.RunCrashesOnMalformedRecord | SteamGameVerifier/Program.cs:38 | a rejected record line after the header crashes the run with the failures before it logged and written, and none after it |
| Scenarios.HexA | SteamGameVerifier/Program.cs:89 | forty `a` digits decode to twenty `0xAA` bytes |
| Scenarios.ParseSample | SteamGameVerifier/Program.cs:84-91 | a sample record line is non-blank and parses to its size, SHA-1, flags and name |
| Scenarios.MissingFileRunWith | SteamGameVerifier/Program.cs:6-72 | one record for a file not on disk: exit 0, one "cannot get" message, summary 1/1/0/0, side file holding that name |
| Scenarios.MissingFileRun | SteamGameVerifier/Program.cs:6-72 | the same run of the line `100 1 aaaa… 0 data/foo.bin` through `ParseLine` |
| Scenarios.DirectoryAndGoodFileRunWith | SteamGameVerifier/Program.cs:35-72 | a directory record then a matching file: exit 0, only the summary 1/0/0/0, empty side file |
| Scenarios.DirectoryAndGoodFileRun | SteamGameVerifier/Program.cs:35-72 | the same run with both lines parsed by `ParseLine` |
| Scenarios.NoHeaderRun | SteamGameVerifier/Program.cs:16-29 | a manifest whose header has collapsed spacing: exit 1, the "headers not found" message only, an empty side file |
| Scenarios.MalformedFirstRecordRunWith | SteamGameVerifier/Program.cs:38 | a rejected first record crashes the run with nothing logged or written |
| Scenarios.OddHexRun | SteamGameVerifier/Program.cs:89 | a record whose SHA-1 field has three hex digits crashes the run with `BadSha1` |

## Left out

- Console output: text and colours (`PrintLog`, `Console.ForegroundColor`).
  - Messages are a datatype with the values they show.
  - The summary does not model the text layout.
  - An exception's `Message` is represented by the failing path.
- Real file I/O: `StreamReader`, `StreamWriter`, `FileInfo`, `FileStream`.
  - The manifest is given as its lines, and `ReadLine`'s splitting into lines is not modelled.
  - The side file is modelled as created whenever the manifest opens.
  - Flushing on a crash is not modelled: a crashed run reports the names written so far.
- The SHA-1 algorithm (`SHA1.ComputeHash`): a foreign library, passed in as a function.
- `Path.Combine` semantics, such as rooted names replacing the base: passed in as a function.
- `Environment.Exit` and unhandled exceptions: modelled as `Exited(code)` and `Crashed(fault)`.
  - The process exit code and the text the runtime prints for a crash are left out.
- Exceptions thrown partway through reading a file that opened: a failure while
  hashing is folded into `content == None` (counted as missing), as the `catch` does.
- Culture-specific parsing: `long.Parse` and `int.Parse` are modelled as an optional
  sign and ASCII digits.
  - Leading or trailing white space inside a field cannot occur after normalization.
- Verifier.Run: the record parser is a parameter.
  - `VerifyGame` fixes it to `ParseLine`.
  - Lemmas about whole runs are stated for any parser, and the scenarios instantiate them with `ParseLine`.
