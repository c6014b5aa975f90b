/** The argument-resolution layer of the Gokapi command-line uploader: the mode dispatcher,
    the upload-parameter scanner, the filename sanitiser, the requirement check with its
    Docker auto-discovery fallback, and the configuration-file lookup.

    Process-global inputs are explicit: `args` is os.Args (args[0] is the program name) and
    `env` holds what the process learns from outside. Every call that ends the process
    returns `Exit(code)` instead. */
module CliFlags {
  import opened Outcomes
  import StrConv
  import PathText

  /* ---------------------------------------------------------------- data model */

  /** The operation modes; `Code` is the integer each Go constant receives from iota. */
  datatype Mode = Login | Logout | Upload | Archive | Invalid
  {
    function Code(): (n: int)
      ensures 0 <= n <= 4
      ensures ModeOfCode(n) == Some(this)
    {
      match this
      case Login => 0
      case Logout => 1
      case Upload => 2
      case Archive => 3
      case Invalid => 4
    }
  }

  /** The mode an integer constant stands for, if any. */
  function ModeOfCode(n: int): Option<Mode>
  {
    if n == 0 then Some(Login)
    else if n == 1 then Some(Logout)
    else if n == 2 then Some(Upload)
    else if n == 3 then Some(Archive)
    else if n == 4 then Some(Invalid)
    else None
  }

  /** The parameters of an upload; `EmptyConfig` is Go's zero value `UploadConfig{}`. */
  datatype UploadConfig = UploadConfig(
    file: string,
    directory: string,
    tmpFolder: string,
    fileName: string,
    jsonOutput: bool,
    disableE2e: bool,
    expiryDays: int,
    expiryDownloads: int,
    password: string)
  {
    /** The string field a value-taking flag sets. */
    function Text(f: TextField): string
    {
      match f
      case FileField => file
      case DirectoryField => directory
      case TmpFolderField => tmpFolder
      case NameField => fileName
      case PasswordField => password
    }

    /** The configuration with the field of `f` set to `v` and every other field as it was. */
    function WithText(f: TextField, v: string): (r: UploadConfig)
      ensures r.Text(f) == v
      ensures forall g: TextField :: g != f ==> r.Text(g) == Text(g)
      ensures r.jsonOutput == jsonOutput && r.disableE2e == disableE2e
      ensures r.expiryDays == expiryDays && r.expiryDownloads == expiryDownloads
    {
      match f
      case FileField => this.(file := v)
      case DirectoryField => this.(directory := v)
      case TmpFolderField => this.(tmpFolder := v)
      case NameField => this.(fileName := v)
      case PasswordField => this.(password := v)
    }

    /** The integer field a numeric flag sets. */
    function Number(f: NumberField): int
    {
      match f
      case ExpiryDaysField => expiryDays
      case ExpiryDownloadsField => expiryDownloads
    }

    /** The configuration with the field of `f` set to `n` and every other field as it was. */
    function WithNumber(f: NumberField, n: int): (r: UploadConfig)
      ensures r.Number(f) == n
      ensures forall g: NumberField :: g != f ==> r.Number(g) == Number(g)
      ensures forall g: TextField :: r.Text(g) == Text(g)
      ensures r.jsonOutput == jsonOutput && r.disableE2e == disableE2e
    {
      match f
      case ExpiryDaysField => this.(expiryDays := n)
      case ExpiryDownloadsField => this.(expiryDownloads := n)
    }
  }

  const EmptyConfig := UploadConfig("", "", "", "", false, false, 0, 0, "")

  /** One entry of a directory listing, as os.ReadDir reports it. */
  datatype Entry = Entry(name: string, isRegular: bool)

  /** What the process learns from outside the argument list. */
  datatype Environment = Environment(
    isDocker: bool,                     // environment.IsDockerInstance()
    uploadFolder: string,               // cliconstants.DockerFolderUpload
    uploadListing: Option<seq<Entry>>,  // os.ReadDir(uploadFolder); None is a read error
    dockerConfigFile: string,           // cliconstants.DockerFolderConfigFile
    defaultConfigFile: string)          // cliconstants.DefaultConfigFileName

  /* ---------------------------------------------------------------- mode dispatcher */

  /** The command word that selects a mode. */
  function CommandName(m: Mode): string
    requires m != Invalid
  {
    match m
    case Login => "login"
    case Logout => "logout"
    case Upload => "upload"
    case Archive => "upload-dir"
  }

  /** Parse: the mode named by args[1]; "help" exits 0, a missing or unknown command exits 3.
      Invalid is never returned, because the usage printer always ends the process. */
  function Parse(args: seq<string>): (r: Outcome<Mode>)
    ensures r.Ok? <==> |args| >= 2 && exists m: Mode :: m != Invalid && CommandName(m) == args[1]
    ensures r.Ok? ==> r.value != Invalid && CommandName(r.value) == args[1]
    ensures r.Exit? ==> r.code == if |args| >= 2 && args[1] == "help" then 0 else 3
  {
    if |args| < 2 then Exit(3)
    else if args[1] == "login" then assert CommandName(Login) == args[1]; Ok(Login)
    else if args[1] == "logout" then assert CommandName(Logout) == args[1]; Ok(Logout)
    else if args[1] == "upload" then assert CommandName(Upload) == args[1]; Ok(Upload)
    else if args[1] == "upload-dir" then assert CommandName(Archive) == args[1]; Ok(Archive)
    else if args[1] == "help" then Exit(0)
    else Exit(3)
  }

  /* ---------------------------------------------------------------- helpers */

  /** getParameter: the token after `position`, or the usage exit 3 when there is none.
      The caller's cursor is passed by value and is not advanced. */
  function GetParameter(args: seq<string>, position: nat): (r: Outcome<string>)
    ensures r.Ok? <==> position + 1 < |args|
    ensures r.Ok? ==> r.value == args[position + 1]
    ensures r.Exit? ==> r.code == 3
  {
    if position + 1 >= |args| then Exit(3) else Ok(args[position + 1])
  }

  /** requireInt: the Atoi value of `input`, or exit 2 when Atoi reports an error. */
  function RequireInt(input: string): (r: Outcome<int>)
    ensures r.Ok? <==> StrConv.Atoi(input).Some?
    ensures r.Ok? ==> StrConv.MinInt64 <= r.value <= StrConv.MaxInt64 && StrConv.Atoi(input) == Some(r.value)
    ensures r.Exit? ==> r.code == 2
  {
    match StrConv.Atoi(input)
    case None => Exit(2)
    case Some(n) => Ok(n)
  }

  /* ---------------------------------------------------------------- flag table */

  datatype TextField = FileField | DirectoryField | TmpFolderField | NameField | PasswordField
  datatype NumberField = ExpiryDaysField | ExpiryDownloadsField

  /** The case labels of the scanner's switch; `Unrecognised` is the missing default. */
  datatype Flag = Json | DisableE2e | TextFlag(textField: TextField) | NumberFlag(numberField: NumberField) | Help | Unrecognised
  {
    function ShortName(): string
      requires !Unrecognised?
    {
      match this
      case Json => "-j"
      case DisableE2e => "-x"
      case TextFlag(FileField) => "-f"
      case TextFlag(DirectoryField) => "-D"
      case TextFlag(TmpFolderField) => "-t"
      case TextFlag(NameField) => "-n"
      case TextFlag(PasswordField) => "-p"
      case NumberFlag(ExpiryDaysField) => "-e"
      case NumberFlag(ExpiryDownloadsField) => "-d"
      case Help => "-h"
    }

    function LongName(): string
      requires !Unrecognised?
    {
      match this
      case Json => "--json"
      case DisableE2e => "--disable-e2e"
      case TextFlag(FileField) => "--file"
      case TextFlag(DirectoryField) => "--directory"
      case TextFlag(TmpFolderField) => "--tempfolder"
      case TextFlag(NameField) => "--name"
      case TextFlag(PasswordField) => "--password"
      case NumberFlag(ExpiryDaysField) => "--expiry-days"
      case NumberFlag(ExpiryDownloadsField) => "--expiry-downloads"
      case Help => "--help"
    }
  }

  /** The switch label a token matches: a recognised flag exactly when the token is its short
      or long name, and `Unrecognised` when it is neither name of any flag. */
  function Classify(token: string): (f: Flag)
    ensures !f.Unrecognised? ==> token == f.ShortName() || token == f.LongName()
    ensures f.Unrecognised? ==> forall g: Flag :: !g.Unrecognised? ==> token != g.ShortName() && token != g.LongName()
  {
    if token == "-j" || token == "--json" then Json
    else if token == "-x" || token == "--disable-e2e" then DisableE2e
    else if token == "-f" || token == "--file" then TextFlag(FileField)
    else if token == "-e" || token == "--expiry-days" then NumberFlag(ExpiryDaysField)
    else if token == "-d" || token == "--expiry-downloads" then NumberFlag(ExpiryDownloadsField)
    else if token == "-p" || token == "--password" then TextFlag(PasswordField)
    else if token == "-D" || token == "--directory" then TextFlag(DirectoryField)
    else if token == "-t" || token == "--tempfolder" then TextFlag(TmpFolderField)
    else if token == "-n" || token == "--name" then TextFlag(NameField)
    else if token == "-h" || token == "--help" then Help
    else Unrecognised
  }

  /* ---------------------------------------------------------------- the scan, as a specification */

  /** The exit a token causes when the scan reaches it, whatever has been collected so far:
      a value-taking flag in last position is a usage error (3), a numeric flag whose value is
      not an Atoi integer is a fatal misuse (2), and a help flag ends the process with 0. */
  function Stop(args: seq<string>, i: nat): (r: Option<int>)
    requires i < |args|
    ensures r == Some(0) <==> Classify(args[i]) == Help
    ensures r == Some(3) <==> (Classify(args[i]).TextFlag? || Classify(args[i]).NumberFlag?) && i + 1 == |args|
    ensures r == Some(2) <==> Classify(args[i]).NumberFlag? && i + 1 < |args| && StrConv.Atoi(args[i + 1]).None?
    ensures r.Some? ==> r.value == 0 || r.value == 2 || r.value == 3
  {
    match Classify(args[i])
    case TextFlag(_) => if i + 1 < |args| then None else Some(3)
    case NumberFlag(_) =>
      if i + 1 >= |args| then Some(3)
      else if StrConv.Atoi(args[i + 1]).None? then Some(2)
      else None
    case Help => Some(0)
    case _ => None
  }

  /** One pass of the loop body of GetUploadParameters on the token at `i`. */
  function Step(args: seq<string>, i: nat, cfg: UploadConfig): (r: Outcome<UploadConfig>)
    requires i < |args|
    ensures r.Exit? <==> Stop(args, i).Some?
    ensures r.Exit? ==> r.code == Stop(args, i).value
  {
    match Classify(args[i])
    case Json => Ok(cfg.(jsonOutput := true))
    case DisableE2e => Ok(cfg.(disableE2e := true))
    case TextFlag(f) =>
      (match GetParameter(args, i)
       case Exit(code) => Exit(code)
       case Ok(v) => Ok(cfg.WithText(f, v)))
    case NumberFlag(f) =>
      (match GetParameter(args, i)
       case Exit(code) => Exit(code)
       case Ok(v) =>
         match RequireInt(v)
         case Exit(code) => Exit(code)
         case Ok(n) => Ok(cfg.WithNumber(f, n)))
    case Help => Exit(0)
    case Unrecognised => Ok(cfg)
  }

  /** The scan of args[i..] starting from `cfg`. The cursor moves by exactly one token per
      step, so the value of a flag is itself classified on the next step. */
  function ScanFrom(args: seq<string>, i: nat, cfg: UploadConfig): (r: Outcome<UploadConfig>)
    ensures r.Exit? ==> r.code == 0 || r.code == 2 || r.code == 3
    decreases |args| - i
  {
    if i >= |args| then Ok(cfg)
    else
      match Step(args, i, cfg)
      case Exit(code) => Exit(code)
      case Ok(next) => ScanFrom(args, i + 1, next)
  }

  /** Negative expiry values mean "unlimited" and are stored as 0. */
  function Clamped(c: UploadConfig): (r: UploadConfig)
    ensures r.expiryDays >= 0 && r.expiryDownloads >= 0
    ensures c.expiryDays >= 0 ==> r.expiryDays == c.expiryDays
    ensures c.expiryDownloads >= 0 ==> r.expiryDownloads == c.expiryDownloads
    ensures c.expiryDays < 0 ==> r.expiryDays == 0
    ensures c.expiryDownloads < 0 ==> r.expiryDownloads == 0
    ensures r == c.(expiryDays := r.expiryDays, expiryDownloads := r.expiryDownloads)
  {
    c.(expiryDays := if c.expiryDays < 0 then 0 else c.expiryDays,
       expiryDownloads := if c.expiryDownloads < 0 then 0 else c.expiryDownloads)
  }

  /** Whether the flag that names the upload target was given: --directory for an archive,
      --file for a single file. */
  predicate HasTarget(config: UploadConfig, isArchive: bool)
  {
    if isArchive then config.directory != "" else config.file != ""
  }

  /** What GetUploadParameters returns or the exit it takes. */
  function UploadParameters(args: seq<string>, isArchive: bool, env: Environment): (r: Outcome<UploadConfig>)
    ensures r.Exit? ==> r.code == 0 || r.code == 2 || r.code == 3
    ensures r.Ok? ==> r.value.expiryDays >= 0 && r.value.expiryDownloads >= 0
    ensures r.Ok? ==> PathText.NoIllegal(r.value.fileName)
    ensures r.Ok? && !isArchive ==> r.value.file != ""
    ensures r.Ok? && isArchive ==> r.value.directory != "" || (env.isDocker && r.value.file == env.uploadFolder)
  {
    match ScanFrom(args, 2, EmptyConfig)
    case Exit(code) => Exit(code)
    case Ok(scanned) =>
      var prepared := Clamped(scanned).(fileName := SanitisedName(scanned.fileName));
      match Required(prepared, isArchive, env)
      case None => Exit(2)
      case Some(checked) => Ok(checked)
  }

  /* ---------------------------------------------------------------- filename sanitiser */

  /** The name sanitiseFilename stores: empty stays empty; otherwise the base name, trimmed of
      white space, with each illegal character replaced by '_'. */
  function SanitisedName(name: string): (r: string)
    ensures name == "" ==> r == ""
    ensures PathText.NoIllegal(r)
    ensures name != "" ==> |r| == |PathText.TrimSpace(PathText.Base(name))|
  {
    if name == "" then "" else PathText.ReplaceIllegal(PathText.TrimSpace(PathText.Base(name)))
  }

  /** sanitiseFilename, with the pointed-to configuration passed in and handed back. */
  method SanitiseFilename(config: UploadConfig) returns (updated: UploadConfig)
    ensures updated == config.(fileName := SanitisedName(config.fileName))
  {
    if config.fileName == "" {
      return config;
    }
    var name := PathText.Base(config.fileName);
    name := PathText.TrimSpace(name);
    name := PathText.ReplaceIllegal(name);
    updated := config.(fileName := name);
  }

  /* ---------------------------------------------------------------- Docker auto-discovery */

  /** The names of the regular-file entries, in listing order. */
  function RegularNames(entries: seq<Entry>): (names: seq<string>)
    ensures |names| <= |entries|
    ensures forall m :: 0 <= m < |names| ==> Entry(names[m], true) in entries
  {
    if entries == [] then []
    else
      var init := entries[..|entries| - 1];
      var last := entries[|entries| - 1];
      var names := RegularNames(init) + (if last.isRegular then [last.name] else []);
      assert forall e :: e in init ==> e in entries;
      names
  }

  /** The path getDockerUpload reports, or None when it reports nothing found. */
  function Discovery(isArchive: bool, env: Environment): (r: Option<string>)
    ensures r.Some? ==> env.isDocker && env.uploadListing.Some?
    ensures r.Some? && isArchive ==> r.value == env.uploadFolder
  {
    if !env.isDocker || env.uploadListing.None? then None
    else
      var names := RegularNames(env.uploadListing.value);
      if isArchive then (if |names| > 0 then Some(env.uploadFolder) else None)
      else if |names| == 1 then Some(PathText.Join(env.uploadFolder, names[0]))
      else None
  }

  lemma {:induction false} RegularNamesAppend(a: seq<Entry>, b: seq<Entry>)
    ensures RegularNames(a + b) == RegularNames(a) + RegularNames(b)
    decreases |b|
  {
    if b != [] {
      var b' := b[..|b| - 1];
      assert (a + b)[..|a + b| - 1] == a + b';
      RegularNamesAppend(a, b');
    } else {
      assert a + b == a;
    }
  }

  /** Appending one entry appends its name exactly when it is a regular file. */
  lemma RegularNamesSnoc(init: seq<Entry>, last: Entry)
    ensures RegularNames(init + [last]) == RegularNames(init) + if last.isRegular then [last.name] else []
  {
    assert (init + [last])[..|init|] == init;
  }

  /** A prefix of a listing has no more regular names than the whole listing. */
  lemma RegularNamesPrefix(entries: seq<Entry>, k: int)
    requires 0 <= k <= |entries|
    ensures |RegularNames(entries[..k])| <= |RegularNames(entries)|
  {
    RegularNamesAppend(entries[..k], entries[k..]);
    assert entries[..k] + entries[k..] == entries;
  }

  /** getDockerUpload: the loop over the listing returns at the first regular entry in archive
      mode and gives up at the second one in single-file mode. */
  method GetDockerUpload(isArchive: bool, env: Environment) returns (found: bool, path: string)
    ensures found == Discovery(isArchive, env).Some?
    ensures path == if found then Discovery(isArchive, env).value else ""
  {
    if !env.isDocker {
      return false, "";
    }
    if env.uploadListing.None? {
      return false, "";
    }
    var entries := env.uploadListing.value;
    var fileName := "";
    var fileWasFound := false;
    ghost var names: seq<string> := [];
    var k := 0;
    while k < |entries|
      invariant 0 <= k <= |entries|
      invariant names == RegularNames(entries[..k])
      invariant isArchive ==> names == [] && !fileWasFound
      invariant |names| <= 1
      invariant fileWasFound <==> |names| == 1
      invariant fileWasFound ==> fileName == names[0]
    {
      var entry := entries[k];
      assert entries[..k + 1] == entries[..k] + [entry];
      RegularNamesSnoc(entries[..k], entry);
      if entry.isRegular {
        RegularNamesPrefix(entries, k + 1);
        if isArchive {
          return true, env.uploadFolder;
        }
        if fileWasFound {
          return false, "";
        }
        fileName := entry.name;
        fileWasFound := true;
        names := names + [entry.name];
      }
      k := k + 1;
    }
    assert entries[..k] == entries;
    if !fileWasFound {
      return false, "";
    }
    return true, PathText.Join(env.uploadFolder, fileName);
  }

  /* ---------------------------------------------------------------- requirement check */

  /** The configuration checkRequiredUploadParameter accepts, possibly with `file` filled in
      by auto-discovery, or None when it reports the target missing. */
  function Required(config: UploadConfig, isArchive: bool, env: Environment): (r: Option<UploadConfig>)
    ensures HasTarget(config, isArchive) ==> r == Some(config)
    ensures r.Some? ==> r.value == config.(file := r.value.file)
    ensures r.Some? && !isArchive ==> r.value.file != ""
    ensures r.Some? && isArchive ==> r.value.directory != "" || (env.isDocker && r.value.file == env.uploadFolder)
    ensures !HasTarget(config, isArchive) ==> (r.Some? <==> env.isDocker && Discovery(isArchive, env).Some?)
    ensures r.Some? && !HasTarget(config, isArchive) ==>
      r.value.file == if isArchive then env.uploadFolder else Discovery(isArchive, env).value
  {
    if HasTarget(config, isArchive) then Some(config)
    else if !env.isDocker then None
    else
      match Discovery(isArchive, env)
      case None => None
      case Some(path) => Some(config.(file := if isArchive then env.uploadFolder else path))
  }

  /** checkRequiredUploadParameter, with the pointed-to configuration passed in and handed back. */
  method CheckRequiredUploadParameter(config: UploadConfig, isArchive: bool, env: Environment)
    returns (ok: bool, updated: UploadConfig)
    ensures ok == Required(config, isArchive, env).Some?
    ensures updated == if ok then Required(config, isArchive, env).value else config
    ensures HasTarget(config, isArchive) ==> ok && updated == config
    ensures !HasTarget(config, isArchive) && !env.isDocker ==> !ok
    ensures updated == config.(file := updated.file)
  {
    if isArchive && config.directory != "" {
      return true, config;
    }
    if !isArchive && config.file != "" {
      return true, config;
    }
    if !env.isDocker {
      return false, config;
    }
    var found, uploadPath := GetDockerUpload(isArchive, env);
    if !found {
      return false, config;
    }
    if isArchive {
      updated := config.(file := env.uploadFolder);
    } else {
      updated := config.(file := uploadPath);
    }
    ok := true;
  }

  /* ---------------------------------------------------------------- the scanner */

  /** GetUploadParameters: scans args[2..], clamps the expiry fields, sanitises the name and
      runs the requirement check. */
  method GetUploadParameters(args: seq<string>, isArchive: bool, env: Environment)
    returns (outcome: Outcome<UploadConfig>)
    ensures outcome == UploadParameters(args, isArchive, env)
    ensures outcome.Ok? ==> outcome.value.expiryDays >= 0 && outcome.value.expiryDownloads >= 0
  {
    var result := EmptyConfig;
    var i := 2;
    while i < |args|
      invariant 2 <= i
      invariant ScanFrom(args, i, result) == ScanFrom(args, 2, EmptyConfig)
      decreases |args| - i
    {
      match Classify(args[i]) {
        case Json =>
          result := result.(jsonOutput := true);
        case DisableE2e =>
          result := result.(disableE2e := true);
        case TextFlag(f) =>
          var value := GetParameter(args, i);
          if value.Exit? {
            return Exit(value.code);
          }
          result := result.WithText(f, value.value);
        case NumberFlag(f) =>
          var value := GetParameter(args, i);
          if value.Exit? {
            return Exit(value.code);
          }
          var n := RequireInt(value.value);
          if n.Exit? {
            return Exit(n.code);
          }
          result := result.WithNumber(f, n.value);
        case Help =>
          return Exit(0);
        case Unrecognised =>
      }
      i := i + 1;
    }
    if result.expiryDownloads < 0 {
      result := result.(expiryDownloads := 0);
    }
    if result.expiryDays < 0 {
      result := result.(expiryDays := 0);
    }
    result := SanitiseFilename(result);
    var ok;
    ok, result := CheckRequiredUploadParameter(result, isArchive, env);
    if !ok {
      return Exit(2);
    }
    return Ok(result);
  }

  /* ---------------------------------------------------------------- configuration file */

  predicate IsConfigFlag(token: string) { token == "-c" || token == "--configuration" }

  /** Where the configuration file is, and whether that is the default location. */
  datatype ConfigLocation = ConfigLocation(path: string, isDefault: bool)

  /** GetConfigLocation: the value of the FIRST -c/--configuration flag (exit 3 when it is the
      last token); without one, the Docker or the default location, reported as the default. */
  method GetConfigLocation(args: seq<string>, env: Environment) returns (outcome: Outcome<ConfigLocation>)
    ensures (forall k :: 2 <= k < |args| ==> !IsConfigFlag(args[k])) ==>
      outcome == Ok(ConfigLocation(if env.isDocker then env.dockerConfigFile else env.defaultConfigFile, true))
    ensures forall j :: 2 <= j < |args| && IsConfigFlag(args[j]) && (forall k :: 2 <= k < j ==> !IsConfigFlag(args[k])) ==>
      outcome == if j + 1 < |args| then Ok(ConfigLocation(args[j + 1], false)) else Exit(3)
  {
    var i := 2;
    while i < |args|
      invariant 2 <= i
      invariant forall k :: 2 <= k < i && k < |args| ==> !IsConfigFlag(args[k])
      decreases |args| - i
    {
      if IsConfigFlag(args[i]) {
        var value := GetParameter(args, i);
        if value.Exit? {
          return Exit(value.code);
        }
        return Ok(ConfigLocation(value.value, false));
      }
      i := i + 1;
    }
    if env.isDocker {
      return Ok(ConfigLocation(env.dockerConfigFile, true));
    }
    return Ok(ConfigLocation(env.defaultConfigFile, true));
  }
}
