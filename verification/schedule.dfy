/** An independent, table-driven statement of the order in which the
    configuration is checked: a list of checks scanned front to back, the
    first failing one naming the error. */
module Schedule {
  import opened Results
  import opened Config

  /** One test the script makes before it may continue. `ValueFilled` tests
      the value of `tested` and, when it is empty, reports `reported`. */
  datatype Check =
    | AnyFileRead
    | SectionPresent(section: string)
    | OptionPresent(section: string, key: string)
    | ValueFilled(section: string, tested: string, reported: string)

  /** The error a single check raises on this configuration, if any. */
  function Outcome(ini: IniData, c: Check): Option<ConfigError> {
    match c
    case AnyFileRead =>
      if ini.filesRead == [] then Some(NoConfigRead) else None
    case SectionPresent(s) =>
      if s in ini.sections then None else Some(MissingSection(s))
    case OptionPresent(s, k) =>
      if HasOption(ini, s, k) then None else Some(MissingKey(s, k))
    case ValueFilled(s, t, k) =>
      if HasOption(ini, s, t) && Value(ini, s, t) == "" then Some(EmptyValue(s, k)) else None
  }

  /** The error of the first failing check, scanning the list in order. */
  function FirstError(ini: IniData, checks: seq<Check>): (r: Option<ConfigError>)
    ensures r.None? <==> forall i :: 0 <= i < |checks| ==> Outcome(ini, checks[i]).None?
    ensures r.Some? ==> exists i :: 0 <= i < |checks| && Outcome(ini, checks[i]) == r
                          && forall j :: 0 <= j < i ==> Outcome(ini, checks[j]).None?
  {
    if checks == [] then None
    else match Outcome(ini, checks[0])
      case Some(e) => Some(e)
      case None =>
        var rest := FirstError(ini, checks[1..]);
        assert forall i :: 1 <= i < |checks| ==> checks[i] == checks[1..][i - 1];
        rest
  }

  /** The two checks made for one option: present, then non-empty. */
  function OptionChecks(section: string, key: string, tested: string): seq<Check> {
    [OptionPresent(section, key), ValueFilled(section, tested, key)]
  }

  /** The option whose value the raw suffix emptiness test looks at. */
  function SuffixTested(check: SuffixCheck): string {
    match check
    case TestsPrefix => FileNamePrefixKey
    case TestsSuffix => FileNameSuffixKey
  }

  /** [rawFiles]: unprocessedPath, processedPath, fileNamePrefix, fileNameSuffix. */
  function RawFilesOrder(check: SuffixCheck): seq<Check> {
    [SectionPresent(RawFilesName)]
      + OptionChecks(RawFilesName, UnprocessedPathKey, UnprocessedPathKey)
      + OptionChecks(RawFilesName, ProcessedPathKey, ProcessedPathKey)
      + OptionChecks(RawFilesName, FileNamePrefixKey, FileNamePrefixKey)
      + OptionChecks(RawFilesName, FileNameSuffixKey, SuffixTested(check))
  }

  /** [exportFile]: destinationPath, fileNamePrefix, fileNameSuffix. */
  function ExportFileOrder(): seq<Check> {
    [SectionPresent(ExportFileName)]
      + OptionChecks(ExportFileName, DestinationPathKey, DestinationPathKey)
      + OptionChecks(ExportFileName, FileNamePrefixKey, FileNamePrefixKey)
      + OptionChecks(ExportFileName, FileNameSuffixKey, FileNameSuffixKey)
  }

  /** [ftArchPostProc]: execPath. */
  function PostProcOrder(): seq<Check> {
    [SectionPresent(PostProcName)] + OptionChecks(PostProcName, ExecPathKey, ExecPathKey)
  }

  /** The declared order: the file read, then the three sections in turn. */
  function Order(check: SuffixCheck): seq<Check> {
    [AnyFileRead] + RawFilesOrder(check) + ExportFileOrder() + PostProcOrder()
  }

  /** The error carried by a result, if any. */
  function ErrorOf<T>(r: Result<T, ConfigError>): Option<ConfigError> {
    match r
    case Ok(_) => None
    case Err(e) => Some(e)
  }

  lemma FirstErrorCons(ini: IniData, c: Check, rest: seq<Check>)
    ensures FirstError(ini, [c] + rest)
         == if Outcome(ini, c).Some? then Outcome(ini, c) else FirstError(ini, rest)
  {
  }

  /** Scanning a concatenation: the first list's error, else the second's. */
  lemma {:induction false} FirstErrorAppend(ini: IniData, a: seq<Check>, b: seq<Check>)
    ensures FirstError(ini, a + b)
         == if FirstError(ini, a).Some? then FirstError(ini, a) else FirstError(ini, b)
    decreases |a|
  {
    if a == [] {
      assert a + b == b;
    } else {
      assert a + b == [a[0]] + (a[1..] + b);
      assert a == [a[0]] + a[1..];
      FirstErrorCons(ini, a[0], a[1..] + b);
      FirstErrorCons(ini, a[0], a[1..]);
      FirstErrorAppend(ini, a[1..], b);
    }
  }

  /** The pair of checks for one option agrees with the resolver's lookup of it. */
  lemma OptionChecksAgree(ini: IniData, section: string, key: string)
    requires section in ini.sections
    ensures FirstError(ini, OptionChecks(section, key, key))
         == ErrorOf(RequireOption(ini.sections[section], section, key))
  {
  }

  /** The suffix pair agrees with the resolver's suffix lookup, given the
      prefix the resolver has already accepted. */
  lemma RawSuffixChecksAgree(ini: IniData, check: SuffixCheck)
    requires Filled(ini, RawFilesName, FileNamePrefixKey)
    ensures FirstError(ini, OptionChecks(RawFilesName, FileNameSuffixKey, SuffixTested(check)))
         == ErrorOf(RequireRawSuffix(ini.sections[RawFilesName], Value(ini, RawFilesName, FileNamePrefixKey), check))
  {
  }

  lemma RawFilesAgree(ini: IniData, check: SuffixCheck)
    ensures FirstError(ini, RawFilesOrder(check)) == ErrorOf(ValidateRawFiles(ini, check))
  {
    var o1 := OptionChecks(RawFilesName, UnprocessedPathKey, UnprocessedPathKey);
    var o2 := OptionChecks(RawFilesName, ProcessedPathKey, ProcessedPathKey);
    var o3 := OptionChecks(RawFilesName, FileNamePrefixKey, FileNamePrefixKey);
    var o4 := OptionChecks(RawFilesName, FileNameSuffixKey, SuffixTested(check));
    assert RawFilesOrder(check) == [SectionPresent(RawFilesName)] + (o1 + o2 + o3 + o4);
    FirstErrorCons(ini, SectionPresent(RawFilesName), o1 + o2 + o3 + o4);
    if RawFilesName in ini.sections {
      FirstErrorAppend(ini, o1 + o2 + o3, o4);
      FirstErrorAppend(ini, o1 + o2, o3);
      FirstErrorAppend(ini, o1, o2);
      var sec := ini.sections[RawFilesName];
      OptionChecksAgree(ini, RawFilesName, UnprocessedPathKey);
      OptionChecksAgree(ini, RawFilesName, ProcessedPathKey);
      OptionChecksAgree(ini, RawFilesName, FileNamePrefixKey);
      var r1 := RequireOption(sec, RawFilesName, UnprocessedPathKey);
      var r2 := RequireOption(sec, RawFilesName, ProcessedPathKey);
      var r3 := RequireOption(sec, RawFilesName, FileNamePrefixKey);
      if r1.Err? {
        assert ValidateRawFiles(ini, check) == Err(r1.error);
      } else if r2.Err? {
        assert ValidateRawFiles(ini, check) == Err(r2.error);
      } else if r3.Err? {
        assert ValidateRawFiles(ini, check) == Err(r3.error);
      } else {
        RawSuffixChecksAgree(ini, check);
      }
    }
  }

  lemma ExportFileAgree(ini: IniData)
    ensures FirstError(ini, ExportFileOrder()) == ErrorOf(ValidateExportFile(ini))
  {
    var o1 := OptionChecks(ExportFileName, DestinationPathKey, DestinationPathKey);
    var o2 := OptionChecks(ExportFileName, FileNamePrefixKey, FileNamePrefixKey);
    var o3 := OptionChecks(ExportFileName, FileNameSuffixKey, FileNameSuffixKey);
    assert ExportFileOrder() == [SectionPresent(ExportFileName)] + (o1 + o2 + o3);
    FirstErrorCons(ini, SectionPresent(ExportFileName), o1 + o2 + o3);
    if ExportFileName in ini.sections {
      FirstErrorAppend(ini, o1 + o2, o3);
      FirstErrorAppend(ini, o1, o2);
      OptionChecksAgree(ini, ExportFileName, DestinationPathKey);
      OptionChecksAgree(ini, ExportFileName, FileNamePrefixKey);
      OptionChecksAgree(ini, ExportFileName, FileNameSuffixKey);
    }
  }

  lemma PostProcAgree(ini: IniData)
    ensures FirstError(ini, PostProcOrder()) == ErrorOf(ValidatePostProc(ini))
  {
    var o1 := OptionChecks(PostProcName, ExecPathKey, ExecPathKey);
    FirstErrorCons(ini, SectionPresent(PostProcName), o1);
    if PostProcName in ini.sections {
      OptionChecksAgree(ini, PostProcName, ExecPathKey);
    }
  }

  /** The nested checks of the resolver report exactly the first failing
      check of the declared order, and succeed exactly when none fails. */
  lemma ValidateFollowsOrder(ini: IniData, check: SuffixCheck)
    ensures ValidateWith(ini, check).Ok? <==> FirstError(ini, Order(check)).None?
    ensures ValidateWith(ini, check).Err? ==> FirstError(ini, Order(check)) == Some(ValidateWith(ini, check).error)
  {
    var raw := RawFilesOrder(check);
    var exported := ExportFileOrder();
    var post := PostProcOrder();
    FirstErrorAppend(ini, [AnyFileRead] + raw + exported, post);
    FirstErrorAppend(ini, [AnyFileRead] + raw, exported);
    FirstErrorCons(ini, AnyFileRead, raw);
    RawFilesAgree(ini, check);
    ExportFileAgree(ini);
    PostProcAgree(ini);
  }
}
