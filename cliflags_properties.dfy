/** Properties of the argument-resolution layer: how the scan treats the argument list, what
    a returned upload configuration holds, the auto-discovery policy and the sanitiser. */
module CliFlagsProperties {
  import opened Outcomes
  import StrConv
  import PathText
  import opened CliFlags

  /* ---------------------------------------------------------------- flag table and modes */

  /** Each flag is recognised under both of its names. */
  lemma ClassifyInvertsNames(f: Flag)
    requires !f.Unrecognised?
    ensures Classify(f.ShortName()) == f && Classify(f.LongName()) == f
  {
    match f
    case Json =>
    case DisableE2e =>
    case TextFlag(FileField) =>
    case TextFlag(DirectoryField) =>
    case TextFlag(TmpFolderField) =>
    case TextFlag(NameField) =>
    case TextFlag(PasswordField) =>
    case NumberFlag(ExpiryDaysField) =>
    case NumberFlag(ExpiryDownloadsField) =>
    case Help =>
  }


  /** Every flag name starts with '-', so a token that does not is never a flag. */
  lemma PlainTokenIsNoFlag(token: string)
    requires token == [] || token[0] != '-'
    ensures Classify(token) == Unrecognised
  {
  }

  /** Every mode but Invalid is selected by its command word, and by nothing else. */
  lemma ParseSelectsNamedMode(args: seq<string>, m: Mode)
    requires m != Invalid
    ensures Parse(args) == Ok(m) <==> |args| >= 2 && args[1] == CommandName(m)
  {
  }

  /* ---------------------------------------------------------------- the scan */

  /** `j` is the first token of args[i..] that ends the process. */
  predicate FirstStop(args: seq<string>, i: nat, j: int)
  {
    i <= j < |args| && Stop(args, j).Some? && forall k :: i <= k < j ==> Stop(args, k).None?
  }

  /** `j` is the last token of args[i..] classified as `flag`. */
  predicate LastAt(args: seq<string>, i: nat, j: int, flag: Flag)
  {
    i <= j < |args| && Classify(args[j]) == flag && forall k :: j < k < |args| ==> Classify(args[k]) != flag
  }

  /** No token of args[i..] is classified as `flag`. */
  predicate Absent(args: seq<string>, i: nat, flag: Flag)
  {
    forall k :: i <= k < |args| ==> Classify(args[k]) != flag
  }

  /** Some token of args[i..] is classified as `flag`. */
  predicate Occurs(args: seq<string>, i: nat, flag: Flag)
  {
    exists j :: i <= j < |args| && Classify(args[j]) == flag
  }

  lemma OccursFrom(args: seq<string>, i: nat, flag: Flag)
    requires i < |args|
    ensures Occurs(args, i, flag) <==> Classify(args[i]) == flag || Occurs(args, i + 1, flag)
  {
    if Occurs(args, i, flag) && Classify(args[i]) != flag {
      var j :| i <= j < |args| && Classify(args[j]) == flag;
      assert i + 1 <= j;
    }
    if Classify(args[i]) == flag {
      assert i <= i < |args| && Classify(args[i]) == flag;
    }
  }

  /** A scan that succeeds from `i` went through the step at `i` and carried on from `i + 1`. */
  lemma ScanContinues(args: seq<string>, i: nat, cfg: UploadConfig)
    requires i < |args| && ScanFrom(args, i, cfg).Ok?
    ensures Step(args, i, cfg).Ok?
    ensures ScanFrom(args, i, cfg) == ScanFrom(args, i + 1, Step(args, i, cfg).value)
  {
  }

  /** The configuration a successful scan carries from `i` to `i + 1`, named without `Step`. */
  lemma ScanSkip(args: seq<string>, i: nat, cfg: UploadConfig) returns (next: UploadConfig)
    requires i < |args| && ScanFrom(args, i, cfg).Ok?
    ensures ScanFrom(args, i, cfg) == ScanFrom(args, i + 1, next)
  {
    ScanContinues(args, i, cfg);
    next := Step(args, i, cfg).value;
  }

  /** A successful scan from `i` is the scan from any later `j` of the configuration it has
      collected by then. */
  lemma {:induction false} ScanReach(args: seq<string>, i: nat, cfg: UploadConfig, j: nat) returns (reached: UploadConfig)
    requires i <= j <= |args| && ScanFrom(args, i, cfg).Ok?
    ensures ScanFrom(args, i, cfg) == ScanFrom(args, j, reached)
    decreases j - i
  {
    if i == j {
      reached := cfg;
    } else {
      var next := ScanSkip(args, i, cfg);
      reached := ScanReach(args, i + 1, next, j);
    }
  }

  /** The first terminating token wins: the scan exits exactly when some token stops it, with
      the code of the first such token, whatever configuration it started from. */
  lemma {:induction false} ScanStopsAtFirst(args: seq<string>, i: nat, cfg: UploadConfig)
    ensures forall j :: FirstStop(args, i, j) ==> ScanFrom(args, i, cfg) == Exit(Stop(args, j).value)
    ensures (forall k :: i <= k < |args| ==> Stop(args, k).None?) ==> ScanFrom(args, i, cfg).Ok?
    decreases |args| - i
  {
    if i < |args| {
      var step := Step(args, i, cfg);
      assert ScanFrom(args, i, cfg) == if step.Exit? then Exit(step.code) else ScanFrom(args, i + 1, step.value);
      if Stop(args, i).Some? {
        forall j | FirstStop(args, i, j)
          ensures j == i
        {
        }
      } else {
        ScanStopsAtFirst(args, i + 1, step.value);
        forall j | FirstStop(args, i, j)
          ensures FirstStop(args, i + 1, j)
        {
        }
      }
    }
  }

  /** One step sets a string field only when the token is that field's flag. */
  lemma StepText(args: seq<string>, i: nat, cfg: UploadConfig, f: TextField)
    requires i < |args| && Step(args, i, cfg).Ok?
    ensures Classify(args[i]) == TextFlag(f) ==> i + 1 < |args|
    ensures Step(args, i, cfg).value.Text(f) == if Classify(args[i]) == TextFlag(f) then args[i + 1] else cfg.Text(f)
  {
    match Classify(args[i])
    case Json =>
    case DisableE2e =>
    case TextFlag(_) =>
    case NumberFlag(_) =>
    case Help =>
    case Unrecognised =>
  }

  /** One step sets an integer field only when the token is that field's flag. */
  lemma StepNumber(args: seq<string>, i: nat, cfg: UploadConfig, f: NumberField)
    requires i < |args| && Step(args, i, cfg).Ok?
    ensures Classify(args[i]) == NumberFlag(f) ==> i + 1 < |args| && StrConv.Atoi(args[i + 1]).Some?
    ensures Step(args, i, cfg).value.Number(f)
      == if Classify(args[i]) == NumberFlag(f) then StrConv.Atoi(args[i + 1]).value else cfg.Number(f)
  {
    match Classify(args[i])
    case Json =>
    case DisableE2e =>
    case TextFlag(_) =>
    case NumberFlag(_) =>
    case Help =>
    case Unrecognised =>
  }

  /** Without a value-taking flag in args[i..] its field keeps what it had. */
  lemma {:induction false} ScanKeepsAbsentText(args: seq<string>, i: nat, cfg: UploadConfig, f: TextField)
    requires ScanFrom(args, i, cfg).Ok? && Absent(args, i, TextFlag(f))
    ensures ScanFrom(args, i, cfg).value.Text(f) == cfg.Text(f)
    decreases |args| - i
  {
    if i < |args| {
      ScanContinues(args, i, cfg);
      var next := Step(args, i, cfg).value;
      StepText(args, i, cfg, f);
      ScanKeepsAbsentText(args, i + 1, next, f);
    }
  }

  /** A value-taking flag with no later occurrence stores the token after it. */
  lemma LastTextHere(args: seq<string>, i: nat, cfg: UploadConfig, f: TextField)
    requires i < |args| && ScanFrom(args, i, cfg).Ok?
    requires Classify(args[i]) == TextFlag(f) && Absent(args, i + 1, TextFlag(f))
    ensures i + 1 < |args| && ScanFrom(args, i, cfg).value.Text(f) == args[i + 1]
  {
    ScanContinues(args, i, cfg);
    var next := Step(args, i, cfg).value;
    StepText(args, i, cfg, f);
    ScanKeepsAbsentText(args, i + 1, next, f);
  }

  /** A value-taking flag keeps the value after its LAST occurrence. */
  lemma ScanKeepsLastText(args: seq<string>, i: nat, cfg: UploadConfig, f: TextField, j: int)
    requires ScanFrom(args, i, cfg).Ok? && LastAt(args, i, j, TextFlag(f))
    ensures j + 1 < |args| && ScanFrom(args, i, cfg).value.Text(f) == args[j + 1]
  {
    var reached := ScanReach(args, i, cfg, j);
    LastTextHere(args, j, reached, f);
  }

  /** Without a numeric flag in args[i..] its field keeps what it had. */
  lemma {:induction false} ScanKeepsAbsentNumber(args: seq<string>, i: nat, cfg: UploadConfig, f: NumberField)
    requires ScanFrom(args, i, cfg).Ok? && Absent(args, i, NumberFlag(f))
    ensures ScanFrom(args, i, cfg).value.Number(f) == cfg.Number(f)
    decreases |args| - i
  {
    if i < |args| {
      ScanContinues(args, i, cfg);
      var next := Step(args, i, cfg).value;
      StepNumber(args, i, cfg, f);
      ScanKeepsAbsentNumber(args, i + 1, next, f);
    }
  }

  /** A numeric flag with no later occurrence stores the Atoi value of the token after it. */
  lemma LastNumberHere(args: seq<string>, i: nat, cfg: UploadConfig, f: NumberField)
    requires i < |args| && ScanFrom(args, i, cfg).Ok?
    requires Classify(args[i]) == NumberFlag(f) && Absent(args, i + 1, NumberFlag(f))
    ensures i + 1 < |args| && StrConv.Atoi(args[i + 1]) == Some(ScanFrom(args, i, cfg).value.Number(f))
  {
    ScanContinues(args, i, cfg);
    var next := Step(args, i, cfg).value;
    StepNumber(args, i, cfg, f);
    ScanKeepsAbsentNumber(args, i + 1, next, f);
  }

  /** A numeric flag keeps the Atoi value of the token after its LAST occurrence. */
  lemma ScanKeepsLastNumber(args: seq<string>, i: nat, cfg: UploadConfig, f: NumberField, j: int)
    requires ScanFrom(args, i, cfg).Ok? && LastAt(args, i, j, NumberFlag(f))
    ensures j + 1 < |args| && StrConv.Atoi(args[j + 1]) == Some(ScanFrom(args, i, cfg).value.Number(f))
  {
    var reached := ScanReach(args, i, cfg, j);
    LastNumberHere(args, j, reached, f);
  }

  /** One step turns a switch on when its token is that switch, and otherwise leaves it. */
  lemma StepSwitches(args: seq<string>, i: nat, cfg: UploadConfig)
    requires i < |args| && Step(args, i, cfg).Ok?
    ensures Step(args, i, cfg).value.jsonOutput == (cfg.jsonOutput || Classify(args[i]) == Json)
    ensures Step(args, i, cfg).value.disableE2e == (cfg.disableE2e || Classify(args[i]) == DisableE2e)
  {
    match Classify(args[i])
    case Json =>
    case DisableE2e =>
    case TextFlag(_) =>
    case NumberFlag(_) =>
    case Help =>
    case Unrecognised =>
  }

  /** The two switches are on exactly when they were on already or some token turns them on. */
  lemma {:induction false} ScanSetsSwitches(args: seq<string>, i: nat, cfg: UploadConfig)
    requires ScanFrom(args, i, cfg).Ok?
    ensures ScanFrom(args, i, cfg).value.jsonOutput == (cfg.jsonOutput || Occurs(args, i, Json))
    ensures ScanFrom(args, i, cfg).value.disableE2e == (cfg.disableE2e || Occurs(args, i, DisableE2e))
    decreases |args| - i
  {
    if i < |args| {
      ScanContinues(args, i, cfg);
      var next := Step(args, i, cfg).value;
      ScanSetsSwitches(args, i + 1, next);
      OccursFrom(args, i, Json);
      OccursFrom(args, i, DisableE2e);
      StepSwitches(args, i, cfg);
    }
  }

  /** Tokens that match no flag (among them -c and --configuration) change nothing. */
  lemma {:induction false} ScanIgnoresUnrecognised(args: seq<string>, i: nat, cfg: UploadConfig)
    requires forall k :: i <= k < |args| ==> Classify(args[k]) == Unrecognised
    ensures ScanFrom(args, i, cfg) == Ok(cfg)
    decreases |args| - i
  {
    if i < |args| {
      ScanIgnoresUnrecognised(args, i + 1, cfg);
    }
  }

  /** A token that is no flag is stepped over without touching the configuration. */
  lemma UnrecognisedTokenIsSkipped(args: seq<string>, i: nat, cfg: UploadConfig)
    requires i < |args| && Classify(args[i]) == Unrecognised
    ensures ScanFrom(args, i, cfg) == ScanFrom(args, i + 1, cfg)
  {
  }

  /** The value of a flag does not move the cursor past it: the scan goes on AT the value token. */
  lemma ValueTokenIsRescanned(args: seq<string>, i: nat, cfg: UploadConfig, f: TextField)
    requires i + 1 < |args| && Classify(args[i]) == TextFlag(f)
    ensures ScanFrom(args, i, cfg) == ScanFrom(args, i + 1, cfg.WithText(f, args[i + 1]))
  {
  }

  /** The numeric twin: the value token after a numeric flag is stored and then scanned again
      as a flag of its own. */
  lemma NumberValueTokenIsRescanned(args: seq<string>, i: nat, cfg: UploadConfig, f: NumberField)
    requires i + 1 < |args| && Classify(args[i]) == NumberFlag(f) && StrConv.Atoi(args[i + 1]).Some?
    ensures ScanFrom(args, i, cfg) == ScanFrom(args, i + 1, cfg.WithNumber(f, StrConv.Atoi(args[i + 1]).value))
  {
  }

  /* ---------------------------------------------------------------- returned configurations */

  /** The configuration the scan produces before clamping, sanitising and checking. */
  function Scanned(args: seq<string>): Outcome<UploadConfig>
  {
    ScanFrom(args, 2, EmptyConfig)
  }

  /** The first token that stops the scan decides the exit: help exits with 0, a flag without
      a value with 3, a numeric flag with a non-numeric value with 2. */
  lemma UploadStopsAtFirst(args: seq<string>, isArchive: bool, env: Environment, j: int)
    requires FirstStop(args, 2, j)
    ensures UploadParameters(args, isArchive, env) == Exit(Stop(args, j).value)
  {
    ScanStopsAtFirst(args, 2, EmptyConfig);
  }

  /** With no stopping token the scan succeeds, and GetUploadParameters exits (always with 2)
      exactly when the target flag is missing and no upload can be discovered in Docker. */
  lemma UploadWithoutStops(args: seq<string>, isArchive: bool, env: Environment)
    requires forall k :: 2 <= k < |args| ==> Stop(args, k).None?
    ensures Scanned(args).Ok?
    ensures UploadParameters(args, isArchive, env).Exit? <==>
      !HasTarget(Scanned(args).value, isArchive) && (!env.isDocker || Discovery(isArchive, env).None?)
    ensures UploadParameters(args, isArchive, env).Exit? ==> UploadParameters(args, isArchive, env).code == 2
  {
    ScanStopsAtFirst(args, 2, EmptyConfig);
  }

  /** A returned configuration is the scanned one with both expiries clamped and the name
      sanitised; only `file` may differ, where auto-discovery filled it in. */
  lemma ReturnedIsPrepared(args: seq<string>, isArchive: bool, env: Environment)
    requires UploadParameters(args, isArchive, env).Ok?
    ensures Scanned(args).Ok?
    ensures var s := Scanned(args).value;
      var r := UploadParameters(args, isArchive, env).value;
      r == Clamped(s).(fileName := SanitisedName(s.fileName), file := r.file)
  {
  }

  /** The string fields other than `file` of a prepared configuration: the name sanitised, the
      rest as scanned. */
  lemma PreparedText(scanned: UploadConfig, returned: UploadConfig, f: TextField)
    requires f != FileField
    requires returned == Clamped(scanned).(fileName := SanitisedName(scanned.fileName), file := returned.file)
    ensures returned.Text(f) == if f == NameField then SanitisedName(scanned.Text(f)) else scanned.Text(f)
    ensures scanned.Text(f) == "" ==> returned.Text(f) == ""
  {
  }

  /** Each expiry field of a returned configuration is the value after the last flag that sets
      it when that value is non-negative, and 0 when it is negative or the flag is absent. */
  lemma ReturnedExpiryIsLastClamped(args: seq<string>, isArchive: bool, env: Environment, f: NumberField)
    requires UploadParameters(args, isArchive, env).Ok?
    ensures Absent(args, 2, NumberFlag(f)) ==> UploadParameters(args, isArchive, env).value.Number(f) == 0
    ensures forall j :: LastAt(args, 2, j, NumberFlag(f)) ==>
      j + 1 < |args| && StrConv.Atoi(args[j + 1]).Some?
      && var v := StrConv.Atoi(args[j + 1]).value;
         UploadParameters(args, isArchive, env).value.Number(f) == if v < 0 then 0 else v
  {
    ReturnedIsPrepared(args, isArchive, env);
    if Absent(args, 2, NumberFlag(f)) {
      ScanKeepsAbsentNumber(args, 2, EmptyConfig, f);
    }
    forall j | LastAt(args, 2, j, NumberFlag(f))
      ensures j + 1 < |args| && StrConv.Atoi(args[j + 1]) == Some(Scanned(args).value.Number(f))
    {
      ScanKeepsLastNumber(args, 2, EmptyConfig, f, j);
    }
  }

  /** Directory, temp folder and password are the values after their last flags ("" when
      absent); the file name is the sanitised value after the last name flag. */
  lemma ReturnedTextIsLast(args: seq<string>, isArchive: bool, env: Environment, f: TextField)
    requires f != FileField
    requires UploadParameters(args, isArchive, env).Ok?
    ensures Absent(args, 2, TextFlag(f)) ==> UploadParameters(args, isArchive, env).value.Text(f) == ""
    ensures forall j :: LastAt(args, 2, j, TextFlag(f)) ==>
      j + 1 < |args|
      && UploadParameters(args, isArchive, env).value.Text(f)
         == if f == NameField then SanitisedName(args[j + 1]) else args[j + 1]
  {
    if Absent(args, 2, TextFlag(f)) {
      ReturnedTextAbsent(args, isArchive, env, f);
    }
    forall j | LastAt(args, 2, j, TextFlag(f))
      ensures j + 1 < |args|
        && UploadParameters(args, isArchive, env).value.Text(f)
           == if f == NameField then SanitisedName(args[j + 1]) else args[j + 1]
    {
      ReturnedTextLast(args, isArchive, env, f, j);
    }
  }

  /** The absent half of ReturnedTextIsLast. */
  lemma ReturnedTextAbsent(args: seq<string>, isArchive: bool, env: Environment, f: TextField)
    requires f != FileField
    requires UploadParameters(args, isArchive, env).Ok? && Absent(args, 2, TextFlag(f))
    ensures UploadParameters(args, isArchive, env).value.Text(f) == ""
  {
    ReturnedIsPrepared(args, isArchive, env);
    ScanKeepsAbsentText(args, 2, EmptyConfig, f);
    assert EmptyConfig.Text(f) == "";
    PreparedText(Scanned(args).value, UploadParameters(args, isArchive, env).value, f);
  }

  /** The last-occurrence half of ReturnedTextIsLast. */
  lemma ReturnedTextLast(args: seq<string>, isArchive: bool, env: Environment, f: TextField, j: int)
    requires f != FileField
    requires UploadParameters(args, isArchive, env).Ok? && LastAt(args, 2, j, TextFlag(f))
    ensures j + 1 < |args|
    ensures UploadParameters(args, isArchive, env).value.Text(f)
      == if f == NameField then SanitisedName(args[j + 1]) else args[j + 1]
  {
    ReturnedIsPrepared(args, isArchive, env);
    var scanned := Scanned(args).value;
    PreparedText(scanned, UploadParameters(args, isArchive, env).value, f);
    ScanKeepsLastText(args, 2, EmptyConfig, f, j);
  }

  /** The switches of a returned configuration are on exactly when their flag occurs. */
  lemma ReturnedSwitches(args: seq<string>, isArchive: bool, env: Environment)
    requires UploadParameters(args, isArchive, env).Ok?
    ensures UploadParameters(args, isArchive, env).value.jsonOutput <==> Occurs(args, 2, Json)
    ensures UploadParameters(args, isArchive, env).value.disableE2e <==> Occurs(args, 2, DisableE2e)
  {
    ReturnedIsPrepared(args, isArchive, env);
    ScanSetsSwitches(args, 2, EmptyConfig);
  }

  /** An explicitly given target is kept as it was scanned. */
  lemma ExplicitTargetIsKept(args: seq<string>, isArchive: bool, env: Environment)
    requires Scanned(args).Ok? && HasTarget(Scanned(args).value, isArchive)
    ensures UploadParameters(args, isArchive, env).Ok?
    ensures UploadParameters(args, isArchive, env).value.file == Scanned(args).value.file
    ensures UploadParameters(args, isArchive, env).value.directory == Scanned(args).value.directory
  {
  }

  /** Outside Docker a missing target is a fatal misuse: exit 2 and nothing returned. */
  lemma MissingTargetOutsideDocker(args: seq<string>, isArchive: bool, env: Environment)
    requires !env.isDocker && Scanned(args).Ok?
    ensures UploadParameters(args, isArchive, env).Ok? <==> HasTarget(Scanned(args).value, isArchive)
    ensures !HasTarget(Scanned(args).value, isArchive) ==> UploadParameters(args, isArchive, env) == Exit(2)
  {
  }

  /* ---------------------------------------------------------------- auto-discovery */

  /** `k` is the one and only regular entry of the listing. */
  predicate OnlyRegular(entries: seq<Entry>, k: int)
  {
    && 0 <= k < |entries|
    && entries[k].isRegular
    && forall m :: 0 <= m < |entries| && m != k ==> !entries[m].isRegular
  }

  predicate SomeRegular(entries: seq<Entry>)
  {
    exists k :: 0 <= k < |entries| && entries[k].isRegular
  }

  lemma {:induction false} RegularNamesEmpty(entries: seq<Entry>)
    ensures RegularNames(entries) == [] <==> !SomeRegular(entries)
  {
    if entries != [] {
      var init := entries[..|entries| - 1];
      RegularNamesEmpty(init);
      if SomeRegular(init) {
        var k :| 0 <= k < |init| && init[k].isRegular;
        assert entries[k].isRegular;
      }
      if SomeRegular(entries) && !entries[|entries| - 1].isRegular {
        var k :| 0 <= k < |entries| && entries[k].isRegular;
        assert init[k].isRegular;
      }
    }
  }

  lemma {:induction false} RegularNamesOfOnly(entries: seq<Entry>, k: int)
    requires OnlyRegular(entries, k)
    ensures RegularNames(entries) == [entries[k].name]
  {
    var n := |entries|;
    var init := entries[..n - 1];
    var last := entries[n - 1];
    assert RegularNames(entries) == RegularNames(init) + (if last.isRegular then [last.name] else []);
    if k == n - 1 {
      assert !SomeRegular(init);
      RegularNamesEmpty(init);
    } else {
      assert OnlyRegular(init, k);
      RegularNamesOfOnly(init, k);
    }
  }

  lemma {:induction false} RegularNamesOne(entries: seq<Entry>)
    requires |RegularNames(entries)| == 1
    ensures exists k :: OnlyRegular(entries, k)
  {
    var n := |entries|;
    var init := entries[..n - 1];
    var last := entries[n - 1];
    assert RegularNames(entries) == RegularNames(init) + (if last.isRegular then [last.name] else []);
    if last.isRegular {
      RegularNamesEmpty(init);
      assert OnlyRegular(entries, n - 1);
    } else {
      RegularNamesOne(init);
      var k :| OnlyRegular(init, k);
      assert OnlyRegular(entries, k);
    }
  }


  /** The auto-discovery policy: nothing outside Docker or on a read error; in archive mode the
      drop folder itself as soon as one regular file is there; in single-file mode the joined
      path of the one regular file, and nothing when there are none or several. */
  lemma DiscoveryPolicy(isArchive: bool, env: Environment)
    ensures !env.isDocker || env.uploadListing.None? ==> Discovery(isArchive, env) == None
    ensures env.isDocker && env.uploadListing.Some? && isArchive ==>
      Discovery(isArchive, env) == if SomeRegular(env.uploadListing.value) then Some(env.uploadFolder) else None
    ensures env.isDocker && env.uploadListing.Some? && !isArchive ==>
      (Discovery(isArchive, env).Some? <==> exists k :: OnlyRegular(env.uploadListing.value, k))
      && forall k :: OnlyRegular(env.uploadListing.value, k) ==>
        Discovery(isArchive, env) == Some(PathText.Join(env.uploadFolder, env.uploadListing.value[k].name))
  {
    if env.uploadListing.Some? {
      var entries := env.uploadListing.value;
      RegularNamesEmpty(entries);
      if |RegularNames(entries)| == 1 {
        RegularNamesOne(entries);
      }
      forall k | OnlyRegular(entries, k)
        ensures RegularNames(entries) == [entries[k].name]
      {
        RegularNamesOfOnly(entries, k);
      }
    }
  }

  /** Entries that are not regular files (directories, links, devices) make no difference. */
  lemma NonRegularEntriesIgnored(isArchive: bool, env: Environment, before: seq<Entry>, e: Entry, after: seq<Entry>)
    requires !e.isRegular
    ensures Discovery(isArchive, env.(uploadListing := Some(before + [e] + after)))
         == Discovery(isArchive, env.(uploadListing := Some(before + after)))
  {
    RegularNamesAppend(before + [e], after);
    RegularNamesAppend(before, [e]);
    RegularNamesAppend(before, after);
    assert RegularNames([e]) == [] by {
      assert [e][..0] == [];
    }
  }

  /** In Docker with no explicit target, an upload goes ahead exactly when discovery finds
      something, and then `file` is the drop folder (archive) or the one file in it. */
  lemma AutoDiscoveryFillsFile(args: seq<string>, isArchive: bool, env: Environment)
    requires env.isDocker && Scanned(args).Ok? && !HasTarget(Scanned(args).value, isArchive)
    ensures UploadParameters(args, isArchive, env).Ok? <==> Discovery(isArchive, env).Some?
    ensures UploadParameters(args, isArchive, env).Exit? ==> UploadParameters(args, isArchive, env).code == 2
    ensures UploadParameters(args, isArchive, env).Ok? ==>
      UploadParameters(args, isArchive, env).value.file
        == if isArchive then env.uploadFolder else Discovery(isArchive, env).value
  {
  }

  /* ---------------------------------------------------------------- sanitiser */

  /** Sanitising a sanitised name changes nothing. */
  lemma SanitiseIdempotent(name: string)
    ensures SanitisedName(SanitisedName(name)) == SanitisedName(name)
  {
    var y := SanitisedName(name);
    if y != "" {
      var t := PathText.TrimSpace(PathText.Base(name));
      assert y == PathText.ReplaceIllegal(t);
      assert PathText.NoSlash(y) by {
        forall k | 0 <= k < |y| ensures y[k] != '/' {
          assert !PathText.IsIllegal(y[k]);
        }
      }
      PathText.BaseOfSegment(y);
      PathText.ReplaceIllegalKeepsTrimmed(t);
      PathText.TrimSpaceKeepsTrimmed(y);
      PathText.ReplaceIllegalKeepsLegal(y);
    }
  }

  /** The sanitised name keeps the characters of the trimmed base name, replacing exactly the
      illegal ones, one for one. */
  lemma SanitiseReplacesOneForOne(name: string)
    requires name != ""
    ensures var t := PathText.TrimSpace(PathText.Base(name));
      |SanitisedName(name)| == |t|
      && forall k :: 0 <= k < |t| ==>
        SanitisedName(name)[k] == if PathText.IsIllegal(t[k]) then '_' else t[k]
  {
  }

  /** A name whose base name is already safe (no illegal character, no white space at
      either end) is reduced to that base name. */
  lemma SanitiseKeepsSafeBase(name: string)
    requires name != ""
    requires var b := PathText.Base(name);
      PathText.NoIllegal(b) && !PathText.IsSpace(b[0]) && !PathText.IsSpace(b[|b| - 1])
    ensures SanitisedName(name) == PathText.Base(name)
  {
    var b := PathText.Base(name);
    PathText.TrimSpaceKeepsTrimmed(b);
    PathText.ReplaceIllegalKeepsLegal(b);
  }

  /** Only the last path segment survives: "../../etc/passwd" becomes "passwd". */
  lemma SanitiseDropsDirectories(name: string)
    requires name == "../../etc/passwd"
    ensures SanitisedName(name) == "passwd"
  {
    PathText.BaseOfPasswdPath(name);
    var b := PathText.Base(name);
    assert PathText.NoIllegal(b) && !PathText.IsSpace(b[0]) && !PathText.IsSpace(b[|b| - 1]);
    SanitiseKeepsSafeBase(name);
  }

  /** A slash-free name without white space at either end only has its illegal characters
      replaced. */
  lemma SanitiseSegment(name: string)
    requires name != "" && PathText.NoSlash(name)
    requires !PathText.IsSpace(name[0]) && !PathText.IsSpace(name[|name| - 1])
    ensures SanitisedName(name) == PathText.ReplaceIllegal(name)
  {
    PathText.BaseOfSegment(name);
    PathText.TrimSpaceKeepsTrimmed(name);
  }

  /** Illegal characters become underscores: "weird:name?.txt" becomes "weird_name_.txt". */
  lemma SanitiseReplacesIllegal(name: string)
    requires name == "weird:name?.txt"
    ensures SanitisedName(name) == "weird_name_.txt"
  {
    PathText.ReplaceInWeirdName(name);
    SanitiseSegment(name);
  }
}
