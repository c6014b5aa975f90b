# Gokapi CLI argument resolution, modelled in Dafny

This project models the argument-resolution layer of the Gokapi command-line uploader
(`cmd/cli-uploader/cliflags/cliflags.go`). That layer does five things:

- It maps the command word to one of the modes login, logout, upload and upload-dir (archive).
- It scans the options of an upload into an `UploadConfig`.
- It clamps negative expiry values to 0 and sanitises the requested file name.
- It checks that a target was given. In a Docker container it can fall back to the single
  file, or the whole folder, found in the upload drop folder.
- It finds the configuration file from `-c`/`--configuration`.

Modules:

- `Outcomes`: `Option` and `Outcome`. `Exit(code)` stands for every path that ends the process
  (`printUsage`, `os.Exit(2)`). `Ok(value)` is a normal return.
- `StrConv`: `strconv.Atoi` for a 64-bit `int`, with `FormatInt` (Itoa) as a
  rendering that `Atoi` undoes on the int64 range. It is not a two-sided inverse: `Atoi` also
  accepts forms such as "+5" and "007".
- `PathText`: `filepath.Base`, `filepath.Join`, `strings.TrimSpace` and the replacement done by
  the regular expression `[<>:"/\\|?*\x00-\x1F]`.
- `CliFlags`: the file itself. Pure parts are functions. The loops and the pointer-updating
  helpers are methods. Four of them are proved equal to a specification function:
  - `GetUploadParameters` matches `UploadParameters`;
  - `GetDockerUpload` matches `Discovery`;
  - `CheckRequiredUploadParameter` matches `Required`;
  - `SanitiseFilename` matches `SanitisedName`.

  `GetConfigLocation` has no such partner. Its own contract states the path it returns and
  the default flag.
- `CliFlagsProperties`: lemmas about the scan, the returned configuration, auto-discovery and
  the sanitiser.
- `CliFlagsExamples`: concrete invocations.

The model reproduces the source's own behaviour, including its quirks:

- `getParameter` assigns its local pointer rather than the caller's counter (line 222), so the
  cursor is never advanced past a flag's value. The value token is classified again on the next
  iteration. `upload -f -j` sets the file to `-j` and also turns on JSON output. `upload -p -h`
  exits with 0.
- The usage text names `--tmpfolder` (line 262), but the scanner only accepts `--tempfolder`
  (line 100). The model follows the scanner.
- In archive mode, auto-discovery fills `File` with the drop folder; it does not fill
  `Directory` (line 167).
- `Parse` never returns `ModeInvalid`: `printUsage` always ends the process, so the
  `return ModeInvalid` at lines 46 and 62 cannot be reached. The model's `Parse` returns an
  `Exit` instead.

## Model

| member | source | states |
|---|---|---|
| CliFlags.Mode.Code | cmd/cli-uploader/cliflags/cliflags.go:14-25 | the iota codes are 0..4 and `ModeOfCode` maps each code back to its mode |
| CliFlags.UploadConfig.WithText | cmd/cli-uploader/cliflags/cliflags.go:78-105 | setting a string field changes exactly that field; the other string fields, both switches and both expiries stay as they were |
| CliFlags.UploadConfig.WithNumber | cmd/cli-uploader/cliflags/cliflags.go:82-89 | setting an expiry field changes exactly that field; every other field stays as it was |
| CliFlags.Parse | cmd/cli-uploader/cliflags/cliflags.go:43-63 | a mode is returned iff there are at least two arguments and args[1] is the command word of a mode other than Invalid; that mode's word is args[1]; otherwise the exit code is 0 for "help" and 3 for anything else, including a missing command |
| CliFlags.GetParameter | cmd/cli-uploader/cliflags/cliflags.go:220-227 | a value is returned iff a token follows `position`, and it is that token; otherwise the exit code is 3 |
| CliFlags.RequireInt | cmd/cli-uploader/cliflags/cliflags.go:229-236 | succeeds iff Atoi succeeds, with Atoi's value, which lies in the int64 range; otherwise the exit code is 2 |
| CliFlags.Classify | cmd/cli-uploader/cliflags/cliflags.go:69-110 | a recognised flag is reported only for its own short or long name; `Unrecognised` only for a token that is neither name of any flag |
| CliFlags.Step | cmd/cli-uploader/cliflags/cliflags.go:69-110 | one iteration exits iff its token stops the scan, and the exit code is the stopping code: 3 for a value flag in last position, 2 for a numeric flag with a non-Atoi value, 0 for help |
| CliFlags.Stop | cmd/cli-uploader/cliflags/cliflags.go:69-110 | a token stops the scan with 0 iff it is help; with 3 iff it is a value flag in last position; with 2 iff it is an expiry flag followed by a non-numeric token; no other code |
| CliFlags.ScanFrom | cmd/cli-uploader/cliflags/cliflags.go:68-111 | the scan loop only ever exits with 0, 2 or 3 |
| CliFlags.Clamped | cmd/cli-uploader/cliflags/cliflags.go:112-117 | a negative expiry becomes 0 ("unlimited"); a non-negative expiry is kept; no other field changes |
| CliFlags.UploadParameters | cmd/cli-uploader/cliflags/cliflags.go:66-124 | the upload exits only with 0, 2 or 3; a returned configuration has non-negative expiries and a name with no illegal character; it has a file in single-file mode; in archive mode it has a directory, or is in Docker with the drop folder as file |
| CliFlags.GetUploadParameters | cmd/cli-uploader/cliflags/cliflags.go:66-124 | the loop, the clamps, the sanitiser and the check compute exactly `UploadParameters`; returned expiries are non-negative |
| CliFlags.SanitisedName | cmd/cli-uploader/cliflags/cliflags.go:126-137 | an empty name stays empty; the result has no illegal character; a non-empty name keeps the length of its trimmed base name |
| CliFlags.SanitiseFilename | cmd/cli-uploader/cliflags/cliflags.go:126-137 | only the file name changes, and it becomes `SanitisedName` of the old one |
| CliFlags.RegularNames | cmd/cli-uploader/cliflags/cliflags.go:185-197 | every name collected is the name of a regular entry of the listing, and there are no more names than entries |
| CliFlags.Discovery | cmd/cli-uploader/cliflags/cliflags.go:174-202 | a path is found only in Docker with a readable drop folder; in archive mode that path is the drop folder itself |
| CliFlags.RegularNamesAppend | cmd/cli-uploader/cliflags/cliflags.go:185-197 | the regular names of a concatenated listing are the concatenation of the regular names |
| CliFlags.GetDockerUpload | cmd/cli-uploader/cliflags/cliflags.go:174-202 | the loop with early returns reports found iff `Discovery` finds a path, and reports that path, or "" when nothing is found |
| CliFlags.Required | cmd/cli-uploader/cliflags/cliflags.go:139-172 | an explicit target keeps the configuration unchanged; without one, the check succeeds iff the process runs in Docker and discovery finds something, and then `file` becomes the drop folder (archive mode) or the discovered path (single-file mode); an accepted configuration differs from the input at most in `file`; the file is non-empty in single-file mode |
| CliFlags.CheckRequiredUploadParameter | cmd/cli-uploader/cliflags/cliflags.go:139-172 | ok iff `Required` accepts, handing back its configuration or the unchanged input; an explicit target gives ok and no change; outside Docker a missing target gives not ok; only `file` can change |
| CliFlags.GetConfigLocation | cmd/cli-uploader/cliflags/cliflags.go:205-218 | the first -c/--configuration flag gives its following token as a non-default path, or exit 3 when it is last; without one, the Docker or default file is returned as the default |
| StrConv.Atoi | cmd/cli-uploader/cliflags/cliflags.go:230 | succeeds exactly on an optional sign followed by one or more ASCII digits whose value lies in int64, with that value |
| StrConv.DigitsValueOfNatDigits | cmd/cli-uploader/cliflags/cliflags.go:230 | reading back the decimal digits of a natural number gives that number |
| StrConv.AtoiFormatInt | cmd/cli-uploader/cliflags/cliflags.go:230 | Atoi inverts the canonical rendering on the int64 range and rejects it outside |
| StrConv.AtoiOneDigit | cmd/cli-uploader/cliflags/cliflags.go:230 | a single digit, with or without a leading minus, is read as its value |
| PathText.TrimSpace | cmd/cli-uploader/cliflags/cliflags.go:131 | the result starts and ends with non-space characters and is an infix of the input with only white space cut off on both sides |
| PathText.TrimSpaceKeepsTrimmed | cmd/cli-uploader/cliflags/cliflags.go:131 | a string with no white space at either end is its own trim |
| PathText.Base | cmd/cli-uploader/cliflags/cliflags.go:130 | the result is never empty; the empty path gives "."; the result is "/" iff the path is non-empty and all slashes; otherwise it is slash-free and is the last segment of the path once trailing slashes are dropped |
| PathText.BaseOfSegment | cmd/cli-uploader/cliflags/cliflags.go:130 | a non-empty slash-free name is its own base name |
| PathText.Join | cmd/cli-uploader/cliflags/cliflags.go:201 | the joined path is longer than the folder |
| PathText.BaseOfJoin | cmd/cli-uploader/cliflags/cliflags.go:201 | Base undoes Join for a non-empty slash-free entry name |
| PathText.ReplaceIllegal | cmd/cli-uploader/cliflags/cliflags.go:133-136 | one-for-one replacement: same length, no illegal character left, legal characters kept, illegal ones turned into '_' |
| PathText.ReplaceIllegalKeepsLegal | cmd/cli-uploader/cliflags/cliflags.go:135-136 | a string without illegal characters is unchanged |
| PathText.ReplaceIllegalKeepsTrimmed | cmd/cli-uploader/cliflags/cliflags.go:131-136 | the replacement never puts white space at either end |
| PathText.BaseOfPasswdPath | cmd/cli-uploader/cliflags/cliflags.go:130 | the base name of "../../etc/passwd" is "passwd" |
| PathText.ReplaceInWeirdName | cmd/cli-uploader/cliflags/cliflags.go:135-136 | "weird:name?.txt" becomes "weird_name_.txt" |
| CliFlagsProperties.ClassifyInvertsNames | cmd/cli-uploader/cliflags/cliflags.go:69-110 | every flag is recognised under both its short and its long name |
| CliFlagsProperties.PlainTokenIsNoFlag | cmd/cli-uploader/cliflags/cliflags.go:69-110 | a token that does not start with '-' is never a flag |
| CliFlagsProperties.ParseSelectsNamedMode | cmd/cli-uploader/cliflags/cliflags.go:48-56 | each mode other than Invalid is returned iff args[1] is its command word |
| CliFlagsProperties.ScanStopsAtFirst | cmd/cli-uploader/cliflags/cliflags.go:68-111 | the first stopping token decides the exit code, whatever came before; with no stopping token the scan succeeds |
| CliFlagsProperties.StepText | cmd/cli-uploader/cliflags/cliflags.go:78-105 | one step sets a string field to the following token exactly when the token is that field's flag |
| CliFlagsProperties.StepNumber | cmd/cli-uploader/cliflags/cliflags.go:82-89 | one step sets an expiry field to the Atoi value of the following token exactly when the token is that field's flag |
| CliFlagsProperties.StepSwitches | cmd/cli-uploader/cliflags/cliflags.go:70-77 | one step turns on a switch exactly when the token is that switch |
| CliFlagsProperties.ScanKeepsAbsentText | cmd/cli-uploader/cliflags/cliflags.go:68-111 | without its flag a string field keeps its starting value |
| CliFlagsProperties.ScanKeepsLastText | cmd/cli-uploader/cliflags/cliflags.go:68-111 | a repeated string flag keeps the token after its last occurrence |
| CliFlagsProperties.ScanKeepsAbsentNumber | cmd/cli-uploader/cliflags/cliflags.go:68-111 | without its flag an expiry field keeps its starting value |
| CliFlagsProperties.ScanKeepsLastNumber | cmd/cli-uploader/cliflags/cliflags.go:82-111 | a repeated expiry flag keeps the Atoi value of the token after its last occurrence |
| CliFlagsProperties.ScanSetsSwitches | cmd/cli-uploader/cliflags/cliflags.go:68-77 | a switch ends up on iff it was on or some token is that switch |
| CliFlagsProperties.ScanIgnoresUnrecognised | cmd/cli-uploader/cliflags/cliflags.go:68-111 | tokens that are no flag, -c among them, leave the configuration as it was; with no flags the scan yields the zero configuration |
| CliFlagsProperties.UnrecognisedTokenIsSkipped | cmd/cli-uploader/cliflags/cliflags.go:68-111 | a token that is no flag is stepped over with the configuration unchanged |
| CliFlagsProperties.ValueTokenIsRescanned | cmd/cli-uploader/cliflags/cliflags.go:220-227 | after a string flag the scan continues AT the value token, with the field set to it |
| CliFlagsProperties.NumberValueTokenIsRescanned | cmd/cli-uploader/cliflags/cliflags.go:82-89 | after an expiry flag with a numeric value the scan continues AT the value token, with the field set to the value's Atoi result |
| CliFlagsProperties.UploadStopsAtFirst | cmd/cli-uploader/cliflags/cliflags.go:68-111 | the upload exits with the code of the first stopping token: 0 for help, 3 for a value flag in last position, 2 for an expiry flag with a non-numeric value |
| CliFlagsProperties.UploadWithoutStops | cmd/cli-uploader/cliflags/cliflags.go:112-123 | with no stopping token the scan succeeds, and the upload exits (always with 2) iff the target flag (`HasTarget`, lines 140-145) is missing and, outside Docker or when discovery finds nothing, no fallback exists |
| CliFlagsProperties.ReturnedIsPrepared | cmd/cli-uploader/cliflags/cliflags.go:112-121 | a returned configuration is the scanned one with both expiries clamped and the name sanitised; only `file` may differ |
| CliFlagsProperties.ReturnedExpiryIsLastClamped | cmd/cli-uploader/cliflags/cliflags.go:82-117 | a returned expiry is the value of its last flag when that value is non-negative, and 0 when it is negative or the flag is absent |
| CliFlagsProperties.ReturnedTextIsLast | cmd/cli-uploader/cliflags/cliflags.go:90-118 | directory, temp folder and password are the value of their last flag ("" when absent); the file name is the sanitised value of the last name flag |
| CliFlagsProperties.ReturnedSwitches | cmd/cli-uploader/cliflags/cliflags.go:70-77 | the switches of a returned configuration are on iff their flag occurs |
| CliFlagsProperties.ExplicitTargetIsKept | cmd/cli-uploader/cliflags/cliflags.go:139-145 | with an explicit target the upload goes ahead with file and directory as scanned |
| CliFlagsProperties.MissingTargetOutsideDocker | cmd/cli-uploader/cliflags/cliflags.go:119-154 | outside Docker the upload goes ahead iff a target was given, and otherwise exits with 2 |
| CliFlagsProperties.RegularNamesEmpty | cmd/cli-uploader/cliflags/cliflags.go:185-200 | no regular names iff no regular entry |
| CliFlagsProperties.RegularNamesOfOnly | cmd/cli-uploader/cliflags/cliflags.go:185-197 | a listing with exactly one regular entry yields that entry's name alone |
| CliFlagsProperties.RegularNamesOne | cmd/cli-uploader/cliflags/cliflags.go:185-197 | exactly one regular name means exactly one regular entry |
| CliFlagsProperties.DiscoveryPolicy | cmd/cli-uploader/cliflags/cliflags.go:174-201 | nothing is found outside Docker or on a read error; archive mode finds the drop folder iff some entry is regular; single-file mode finds something iff exactly one entry is regular, and then the folder joined with its name |
| CliFlagsProperties.NonRegularEntriesIgnored | cmd/cli-uploader/cliflags/cliflags.go:186 | inserting a non-regular entry anywhere in the listing changes nothing |
| CliFlagsProperties.AutoDiscoveryFillsFile | cmd/cli-uploader/cliflags/cliflags.go:156-171 | in Docker without a target the upload goes ahead iff discovery finds something (otherwise exit 2), and `file` is then the drop folder (archive) or the discovered path |
| CliFlagsProperties.SanitiseIdempotent | cmd/cli-uploader/cliflags/cliflags.go:126-137 | sanitising a sanitised name changes nothing |
| CliFlagsProperties.SanitiseReplacesOneForOne | cmd/cli-uploader/cliflags/cliflags.go:130-136 | the sanitised name has the length of the trimmed base name, with exactly its illegal characters replaced by '_' |
| CliFlagsProperties.SanitiseKeepsSafeBase | cmd/cli-uploader/cliflags/cliflags.go:126-137 | a name whose base name is already safe is reduced to that base name |
| CliFlagsProperties.SanitiseDropsDirectories | cmd/cli-uploader/cliflags/cliflags.go:130 | "../../etc/passwd" is sanitised to "passwd" |
| CliFlagsProperties.SanitiseSegment | cmd/cli-uploader/cliflags/cliflags.go:130-136 | a trimmed slash-free name only has its illegal characters replaced |
| CliFlagsProperties.SanitiseReplacesIllegal | cmd/cli-uploader/cliflags/cliflags.go:133-136 | "weird:name?.txt" is sanitised to "weird_name_.txt" |
| CliFlagsExamples.ParseExamples | cmd/cli-uploader/cliflags/cliflags.go:43-63 | no command exits 3, "upload-dir" selects the archive mode, an unknown command exits 3 |
| CliFlagsExamples.FlagSpellings | cmd/cli-uploader/cliflags/cliflags.go:98-101 | "--tempfolder" is the temp-folder flag, while "--tmpfolder", "-c" and "--configuration" are ignored by the upload scanner |
| CliFlagsExamples.FileValueIsAlsoAFlag | cmd/cli-uploader/cliflags/cliflags.go:70-81 | `upload -f -j` uploads the file "-j" with JSON output on |
| CliFlagsExamples.PasswordValueIsAlsoAFlag | cmd/cli-uploader/cliflags/cliflags.go:90-109 | `upload -p -h` exits with 0 |
| CliFlagsExamples.FileHeadScan | cmd/cli-uploader/cliflags/cliflags.go:78-81 | `-f a.txt` sets the file and then skips "a.txt" |
| CliFlagsExamples.ExpiryTailScan | cmd/cli-uploader/cliflags/cliflags.go:82-85 | `-e 7` sets 7 expiry days and then skips "7" |
| CliFlagsExamples.FileAndExpiryScan | cmd/cli-uploader/cliflags/cliflags.go:68-111 | the scan of `upload -f a.txt -e 7` yields the file and 7 days |
| CliFlagsExamples.FileAndExpiry | cmd/cli-uploader/cliflags/cliflags.go:66-124 | `upload -f a.txt -e 7` returns the file and 7 days, everything else zero |
| CliFlagsExamples.NegativeExpiryWithoutFile | cmd/cli-uploader/cliflags/cliflags.go:115-121 | `upload --expiry-days -5` outside Docker exits with 2 |
| CliFlagsExamples.DockerSingleFile | cmd/cli-uploader/cliflags/cliflags.go:174-201 | in Docker, one regular file beside a folder is uploaded from the drop folder |
| CliFlagsExamples.DockerTwoFiles | cmd/cli-uploader/cliflags/cliflags.go:190-193 | in Docker, two regular files and no target exit with 2 |

## Left out

- `printUsage`'s text and every `fmt.Println` message (lines 149-161, 232, 238-271). Only the
  exit code is kept, as `Exit(code)`.
- `os.Exit` and `os.Args` as process globals. They become a returned outcome and an explicit
  `args` parameter.
- `environment.IsDockerInstance` and `os.ReadDir` belong to other packages and touch the
  environment. Their answers come in as fields of `Environment`: a boolean, and a listing
  whose `None` is a read error.
- The `cliconstants` paths (`DockerFolderUpload`, `DockerFolderConfigFile`,
  `DefaultConfigFileName`). That package is not part of this model, so the paths are
  arbitrary strings in `Environment`.
- `*UploadConfig` pointers: `sanitiseFilename` and `checkRequiredUploadParameter` only ever
  receive `&result` of a local. They are modelled as taking a configuration and handing back
  the updated one, so aliasing is not modelled.
- PathText.Join: modelled as folder + "/" + name, without the `filepath.Clean` that Go applies.
  A drop-folder constant with a trailing or doubled slash would be cleaned by Go but not here.
  Entry names from ReadDir hold no separator.
- PathText.Base: Unix semantics only ('/' is the only separator). Windows volume names and '\\'
  as a separator are not modelled.
- PathText.TrimSpace: strings are sequences of Unicode code points. Go works on UTF-8 bytes, so
  invalid UTF-8 and the byte-level behaviour of `TrimSpace` and `ReplaceAllString` are not
  modelled.
- StrConv.Atoi: assumes a 64-bit `int`. The int fields of `UploadConfig` are unbounded
  integers; they only ever hold Atoi results or 0, so no overflow arises.
