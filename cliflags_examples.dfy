/** Worked invocations of the argument-resolution layer, including the consequences of the
    scanner re-reading each flag value as a possible flag. */
module CliFlagsExamples {
  import opened Outcomes
  import StrConv
  import PathText
  import opened CliFlags
  import opened CliFlagsProperties

  /** Mode resolution on a missing, a known and an unknown command. */
  lemma ParseExamples(a: seq<string>, b: seq<string>, c: seq<string>)
    requires a == ["prog"] && b == ["prog", "upload-dir"] && c == ["prog", "frobnicate"]
    ensures Parse(a) == Exit(3) && Parse(b) == Ok(Archive) && Parse(c) == Exit(3)
  {
  }

  /** The temp-folder flag is spelled --tempfolder; --tmpfolder, and the configuration flags
      that GetConfigLocation reads, are ignored by the upload scanner. */
  lemma FlagSpellings()
    ensures Classify("--tempfolder") == TextFlag(TmpFolderField)
    ensures Classify("--tmpfolder") == Unrecognised
    ensures Classify("-c") == Unrecognised && Classify("--configuration") == Unrecognised
  {
  }

  /** `upload -f -j`: "-j" is taken as the file AND then read as the JSON flag. */
  lemma FileValueIsAlsoAFlag(args: seq<string>, env: Environment)
    requires args == ["prog", "upload", "-f", "-j"]
    ensures UploadParameters(args, false, env) == Ok(EmptyConfig.(file := "-j", jsonOutput := true))
  {
    var afterFile := EmptyConfig.(file := "-j");
    assert Step(args, 2, EmptyConfig) == Ok(afterFile);
    assert Step(args, 3, afterFile) == Ok(afterFile.(jsonOutput := true));
    assert ScanFrom(args, 2, EmptyConfig) == ScanFrom(args, 3, afterFile);
    assert ScanFrom(args, 3, afterFile) == ScanFrom(args, 4, afterFile.(jsonOutput := true));
  }

  /** `upload -p -h`: the password value "-h" is read as the help flag, which exits with 0. */
  lemma PasswordValueIsAlsoAFlag(args: seq<string>, isArchive: bool, env: Environment)
    requires args == ["prog", "upload", "-p", "-h"]
    ensures UploadParameters(args, isArchive, env) == Exit(0)
  {
    var afterPassword := EmptyConfig.(password := "-h");
    assert Step(args, 2, EmptyConfig) == Ok(afterPassword);
    assert Step(args, 3, afterPassword) == Exit(0);
    assert ScanFrom(args, 2, EmptyConfig) == ScanFrom(args, 3, afterPassword);
  }

  /** The tail `-e 7` of that scan: the expiry is set, and "7" is then read and ignored. */
  lemma ExpiryTailScan(args: seq<string>, before: UploadConfig)
    requires |args| == 6 && args[4] == "-e" && args[5] == "7"
    ensures ScanFrom(args, 4, before) == Ok(before.(expiryDays := 7))
  {
    var after := before.(expiryDays := 7);
    StrConv.AtoiOneDigit(args[5]);
    assert Classify(args[4]) == NumberFlag(ExpiryDaysField);
    assert RequireInt(args[5]) == Ok(7);
    assert Step(args, 4, before) == Ok(after);
    assert ScanFrom(args, 4, before) == ScanFrom(args, 5, after);
    PlainTokenIsNoFlag(args[5]);
    UnrecognisedTokenIsSkipped(args, 5, after);
  }

  /** The head `-f a.txt` of that scan: the file is set, and "a.txt" is then read and ignored. */
  lemma FileHeadScan(args: seq<string>)
    requires |args| >= 4 && args[2] == "-f" && args[3] == "a.txt"
    ensures ScanFrom(args, 2, EmptyConfig) == ScanFrom(args, 4, EmptyConfig.(file := "a.txt"))
  {
    ValueTokenIsRescanned(args, 2, EmptyConfig, FileField);
    PlainTokenIsNoFlag(args[3]);
    UnrecognisedTokenIsSkipped(args, 3, EmptyConfig.(file := "a.txt"));
  }

  /** The scan of `upload -f a.txt -e 7`: each value is re-read and ignored as a flag. */
  lemma FileAndExpiryScan(args: seq<string>)
    requires args == ["prog", "upload", "-f", "a.txt", "-e", "7"]
    ensures Scanned(args) == Ok(EmptyConfig.(file := "a.txt", expiryDays := 7))
  {
    FileHeadScan(args);
    ExpiryTailScan(args, EmptyConfig.(file := "a.txt"));
  }

  /** `upload -f a.txt -e 7` returns the file and 7 expiry days, everything else zero. */
  lemma FileAndExpiry(args: seq<string>, env: Environment)
    requires args == ["prog", "upload", "-f", "a.txt", "-e", "7"]
    ensures UploadParameters(args, false, env) == Ok(EmptyConfig.(file := "a.txt", expiryDays := 7))
  {
    FileAndExpiryScan(args);
  }

  /** `upload --expiry-days -5` outside Docker: the days clamp to 0 but no file was given, so
      the process exits with 2. */
  lemma NegativeExpiryWithoutFile(args: seq<string>, env: Environment)
    requires args == ["prog", "upload", "--expiry-days", "-5"] && !env.isDocker
    ensures UploadParameters(args, false, env) == Exit(2)
  {
    var c := EmptyConfig.(expiryDays := -5);
    StrConv.AtoiOneDigit(args[3]);
    assert Step(args, 2, EmptyConfig) == Ok(c);
    assert ScanFrom(args, 2, EmptyConfig) == ScanFrom(args, 3, c);
    assert Step(args, 3, c) == Ok(c);
    assert ScanFrom(args, 3, c) == ScanFrom(args, 4, c);
  }

  /** In Docker, `upload` with one regular file in the drop folder uploads that file. */
  lemma DockerSingleFile(args: seq<string>, env: Environment)
    requires args == ["prog", "upload"] && env.isDocker
    requires env.uploadListing == Some([Entry("report.pdf", true), Entry("sub", false)])
    ensures UploadParameters(args, false, env) == Ok(EmptyConfig.(file := PathText.Join(env.uploadFolder, "report.pdf")))
  {
    DiscoveryPolicy(false, env);
    assert OnlyRegular(env.uploadListing.value, 0);
  }

  /** In Docker, `upload` with two regular files in the drop folder refuses to guess: exit 2. */
  lemma DockerTwoFiles(args: seq<string>, env: Environment)
    requires args == ["prog", "upload"] && env.isDocker
    requires env.uploadListing == Some([Entry("a.pdf", true), Entry("b.pdf", true)])
    ensures UploadParameters(args, false, env) == Exit(2)
  {
    DiscoveryPolicy(false, env);
  }
}
