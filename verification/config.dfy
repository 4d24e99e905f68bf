/** Validation and resolution of the autoExport configuration: the three
    required sections, their options in a fixed order, first error wins. */
module Config {
  import opened Results
  import Paths

  const RawFilesName := "rawFiles"
  const ExportFileName := "exportFile"
  const PostProcName := "ftArchPostProc"

  const UnprocessedPathKey := "unprocessedPath"
  const ProcessedPathKey := "processedPath"
  const FileNamePrefixKey := "fileNamePrefix"
  const FileNameSuffixKey := "fileNameSuffix"
  const DestinationPathKey := "destinationPath"
  const ExecPathKey := "execPath"

  /** The merged INI data: the names of the files that could be read (empty
      when none could) and the union of their sections, option to value.
      Values are as read after `%` interpolation, which is not modelled. */
  datatype IniData = IniData(filesRead: seq<string>, sections: map<string, map<string, string>>)

  /** Why resolution stopped; the script quits at the first of these. */
  datatype ConfigError =
    | NoConfigRead
    | MissingSection(section: string)
    | MissingKey(section: string, key: string)
    | EmptyValue(section: string, key: string)

  datatype RawFiles = RawFiles(
    unprocessedPath: string,
    processedPath: string,
    fileNamePrefix: string,
    fileNameSuffix: string)

  datatype ExportFile = ExportFile(
    destinationPath: string,
    fileNamePrefix: string,
    fileNameSuffix: string)

  datatype PostProc = PostProc(execPath: string)

  /** The resolved settings, one record per configuration section. */
  datatype Settings = Settings(rawFiles: RawFiles, exportFile: ExportFile, postProc: PostProc)

  /** Which value the emptiness test for the raw file name suffix looks at:
      the script as written tests the prefix again; the evident intent is the suffix. */
  datatype SuffixCheck = TestsPrefix | TestsSuffix

  predicate HasOption(ini: IniData, section: string, key: string) {
    section in ini.sections && key in ini.sections[section]
  }

  function Value(ini: IniData, section: string, key: string): string
    requires HasOption(ini, section, key)
  {
    ini.sections[section][key]
  }

  /** The option is present and holds a non-empty value. */
  predicate Filled(ini: IniData, section: string, key: string) {
    HasOption(ini, section, key) && Value(ini, section, key) != ""
  }

  /** [rawFiles] passes: every option present and non-empty, except that
      the suffix's emptiness is only checked when the check looks at it. */
  predicate RawFilesComplete(ini: IniData, check: SuffixCheck) {
    && Filled(ini, RawFilesName, UnprocessedPathKey)
    && Filled(ini, RawFilesName, ProcessedPathKey)
    && Filled(ini, RawFilesName, FileNamePrefixKey)
    && HasOption(ini, RawFilesName, FileNameSuffixKey)
    && (check.TestsSuffix? ==> Filled(ini, RawFilesName, FileNameSuffixKey))
  }

  predicate ExportFileComplete(ini: IniData) {
    && Filled(ini, ExportFileName, DestinationPathKey)
    && Filled(ini, ExportFileName, FileNamePrefixKey)
    && Filled(ini, ExportFileName, FileNameSuffixKey)
  }

  predicate PostProcComplete(ini: IniData) {
    Filled(ini, PostProcName, ExecPathKey)
  }

  /** Everything the script requires apart from the raw file name suffix being non-empty. */
  predicate AcceptsAsWritten(ini: IniData) {
    && |ini.filesRead| > 0
    && RawFilesComplete(ini, TestsPrefix)
    && ExportFileComplete(ini)
    && PostProcComplete(ini)
  }

  /** The intended acceptance condition: every required option present and non-empty. */
  predicate AcceptsIntended(ini: IniData) {
    && |ini.filesRead| > 0
    && RawFilesComplete(ini, TestsSuffix)
    && ExportFileComplete(ini)
    && PostProcComplete(ini)
  }

  /** A section-level error is about what the sections really contain: a
      missing section is absent, a missing key is absent from a present
      section, and an empty value is a present key holding "". */
  predicate ErrorInSections(ini: IniData, e: ConfigError) {
    match e
    case NoConfigRead => false
    case MissingSection(s) => s !in ini.sections
    case MissingKey(s, k) => s in ini.sections && k !in ini.sections[s]
    case EmptyValue(s, k) => HasOption(ini, s, k) && Value(ini, s, k) == ""
  }

  /** The error, if any, is about what the configuration really contains. */
  predicate ErrorDescribes(ini: IniData, e: ConfigError) {
    if e.NoConfigRead? then ini.filesRead == [] else |ini.filesRead| > 0 && ErrorInSections(ini, e)
  }

  /** One required option of a present section: a missing option and an
      empty one are reported differently. */
  function RequireOption(sec: map<string, string>, section: string, key: string): (r: Result<string, ConfigError>)
    ensures r.Ok? <==> key in sec && sec[key] != ""
    ensures r.Ok? ==> r.value == sec[key]
    ensures r.Err? && key !in sec ==> r.error == MissingKey(section, key)
    ensures r.Err? && key in sec ==> r.error == EmptyValue(section, key)
  {
    if key !in sec then Err(MissingKey(section, key))
    else if sec[key] == "" then Err(EmptyValue(section, key))
    else Ok(sec[key])
  }

  /** The [rawFiles] block: unprocessedPath, processedPath, fileNamePrefix,
      fileNameSuffix, in that order; both paths get a trailing separator. */
  function ValidateRawFiles(ini: IniData, check: SuffixCheck): (r: Result<RawFiles, ConfigError>)
    ensures r.Ok? <==> RawFilesComplete(ini, check)
    ensures r.Ok? ==> r.value == RawFiles(
                        Paths.JoinEmpty(Value(ini, RawFilesName, UnprocessedPathKey)),
                        Paths.JoinEmpty(Value(ini, RawFilesName, ProcessedPathKey)),
                        Value(ini, RawFilesName, FileNamePrefixKey),
                        Value(ini, RawFilesName, FileNameSuffixKey))
    ensures r.Err? ==> ErrorInSections(ini, r.error)
  {
    if RawFilesName !in ini.sections then Err(MissingSection(RawFilesName))
    else
      var sec := ini.sections[RawFilesName];
      var unprocessed :- RequireOption(sec, RawFilesName, UnprocessedPathKey);
      var processed :- RequireOption(sec, RawFilesName, ProcessedPathKey);
      var prefix :- RequireOption(sec, RawFilesName, FileNamePrefixKey);
      var suffix :- RequireRawSuffix(sec, prefix, check);
      Ok(RawFiles(Paths.JoinEmpty(unprocessed), Paths.JoinEmpty(processed), prefix, suffix))
  }

  /** The raw fileNameSuffix: present is required; its emptiness test looks
      at `prefix` as written, or at the suffix itself as intended. */
  function RequireRawSuffix(sec: map<string, string>, prefix: string, check: SuffixCheck): (r: Result<string, ConfigError>)
    ensures r.Ok? <==> FileNameSuffixKey in sec && (match check case TestsPrefix => prefix case TestsSuffix => sec[FileNameSuffixKey]) != ""
    ensures r.Ok? ==> r.value == sec[FileNameSuffixKey]
    ensures r.Err? && FileNameSuffixKey !in sec ==> r.error == MissingKey(RawFilesName, FileNameSuffixKey)
    ensures r.Err? && FileNameSuffixKey in sec ==> r.error == EmptyValue(RawFilesName, FileNameSuffixKey)
  {
    if FileNameSuffixKey !in sec then Err(MissingKey(RawFilesName, FileNameSuffixKey))
    else
      var suffix := sec[FileNameSuffixKey];
      var tested := match check case TestsPrefix => prefix case TestsSuffix => suffix;
      if tested == "" then Err(EmptyValue(RawFilesName, FileNameSuffixKey))
      else Ok(suffix)
  }

  /** The [exportFile] block: destinationPath (given a trailing separator),
      fileNamePrefix, fileNameSuffix. */
  function ValidateExportFile(ini: IniData): (r: Result<ExportFile, ConfigError>)
    ensures r.Ok? <==> ExportFileComplete(ini)
    ensures r.Ok? ==> r.value == ExportFile(
                        Paths.JoinEmpty(Value(ini, ExportFileName, DestinationPathKey)),
                        Value(ini, ExportFileName, FileNamePrefixKey),
                        Value(ini, ExportFileName, FileNameSuffixKey))
    ensures r.Err? ==> ErrorInSections(ini, r.error)
  {
    if ExportFileName !in ini.sections then Err(MissingSection(ExportFileName))
    else
      var sec := ini.sections[ExportFileName];
      var destination :- RequireOption(sec, ExportFileName, DestinationPathKey);
      var prefix :- RequireOption(sec, ExportFileName, FileNamePrefixKey);
      var suffix :- RequireOption(sec, ExportFileName, FileNameSuffixKey);
      Ok(ExportFile(Paths.JoinEmpty(destination), prefix, suffix))
  }

  /** The [ftArchPostProc] block: execPath, which is also given a trailing separator. */
  function ValidatePostProc(ini: IniData): (r: Result<PostProc, ConfigError>)
    ensures r.Ok? <==> PostProcComplete(ini)
    ensures r.Ok? ==> r.value == PostProc(Paths.JoinEmpty(Value(ini, PostProcName, ExecPathKey)))
    ensures r.Err? ==> ErrorInSections(ini, r.error)
  {
    if PostProcName !in ini.sections then Err(MissingSection(PostProcName))
    else
      var exec :- RequireOption(ini.sections[PostProcName], PostProcName, ExecPathKey);
      Ok(PostProc(Paths.JoinEmpty(exec)))
  }

  /** The whole validation chain: a read check, then the three sections in order. */
  function ValidateWith(ini: IniData, check: SuffixCheck): Result<Settings, ConfigError> {
    if ini.filesRead == [] then Err(NoConfigRead)
    else
      var raw :- ValidateRawFiles(ini, check);
      var exportFile :- ValidateExportFile(ini);
      var postProc :- ValidatePostProc(ini);
      Ok(Settings(raw, exportFile, postProc))
  }

  /** The settings of a successful resolution relate to the INI data as the
      script stores them: paths normalised, prefixes and suffixes verbatim. */
  predicate StoredFrom(ini: IniData, s: Settings)
    requires AcceptsAsWritten(ini)
  {
    && s.rawFiles.unprocessedPath == Paths.JoinEmpty(Value(ini, RawFilesName, UnprocessedPathKey))
    && s.rawFiles.processedPath == Paths.JoinEmpty(Value(ini, RawFilesName, ProcessedPathKey))
    && s.rawFiles.fileNamePrefix == Value(ini, RawFilesName, FileNamePrefixKey)
    && s.rawFiles.fileNameSuffix == Value(ini, RawFilesName, FileNameSuffixKey)
    && s.exportFile.destinationPath == Paths.JoinEmpty(Value(ini, ExportFileName, DestinationPathKey))
    && s.exportFile.fileNamePrefix == Value(ini, ExportFileName, FileNamePrefixKey)
    && s.exportFile.fileNameSuffix == Value(ini, ExportFileName, FileNameSuffixKey)
    && s.postProc.execPath == Paths.JoinEmpty(Value(ini, PostProcName, ExecPathKey))
  }

  /** The four path-like settings end in a separator. */
  predicate PathsNormalised(s: Settings) {
    && Paths.EndsWithSeparator(s.rawFiles.unprocessedPath)
    && Paths.EndsWithSeparator(s.rawFiles.processedPath)
    && Paths.EndsWithSeparator(s.exportFile.destinationPath)
    && Paths.EndsWithSeparator(s.postProc.execPath)
  }

  /** The resolver as the script is written (the suffix emptiness test looks at the prefix). */
  function Validate(ini: IniData): (r: Result<Settings, ConfigError>)
    ensures r.Ok? <==> AcceptsAsWritten(ini)
    ensures r.Ok? ==> StoredFrom(ini, r.value) && PathsNormalised(r.value)
    ensures r.Err? ==> ErrorDescribes(ini, r.error)
    ensures |ini.filesRead| > 0 && RawFilesName !in ini.sections ==> r == Err(MissingSection(RawFilesName))
  {
    ValidateWith(ini, TestsPrefix)
  }

  /** The resolver with the suffix emptiness test looking at the suffix. */
  function ValidateIntended(ini: IniData): (r: Result<Settings, ConfigError>)
    ensures r.Ok? <==> AcceptsIntended(ini)
    ensures r.Ok? ==> StoredFrom(ini, r.value) && PathsNormalised(r.value)
    ensures r.Ok? ==> r.value.rawFiles.fileNameSuffix != ""
    ensures r.Err? ==> ErrorDescribes(ini, r.error)
  {
    ValidateWith(ini, TestsSuffix)
  }

  /** The raw section passes up to and including the presence of fileNameSuffix. */
  predicate RawFilesUpToSuffix(ini: IniData) {
    && |ini.filesRead| > 0
    && Filled(ini, RawFilesName, UnprocessedPathKey)
    && Filled(ini, RawFilesName, ProcessedPathKey)
    && Filled(ini, RawFilesName, FileNamePrefixKey)
    && HasOption(ini, RawFilesName, FileNameSuffixKey)
  }

  /** The as-written and the intended resolver disagree exactly when the raw
      section is complete and its fileNameSuffix is empty: the intended one
      then reports that option, the as-written one carries on. */
  lemma IntendedDiffersOnlyOnEmptyRawSuffix(ini: IniData)
    ensures Validate(ini) != ValidateIntended(ini)
        <==> RawFilesUpToSuffix(ini) && Value(ini, RawFilesName, FileNameSuffixKey) == ""
    ensures Validate(ini) != ValidateIntended(ini)
        ==> ValidateIntended(ini) == Err(EmptyValue(RawFilesName, FileNameSuffixKey))
  {
  }

  /** A configuration whose raw fileNameSuffix is empty but otherwise complete. */
  const EmptyRawSuffixIni := IniData(
    ["autoExportConfig.ini"],
    map[
      RawFilesName := map[UnprocessedPathKey := "/in", ProcessedPathKey := "/done",
                          FileNamePrefixKey := "PRE_", FileNameSuffixKey := ""],
      ExportFileName := map[DestinationPathKey := "/out", FileNamePrefixKey := "EXP_",
                            FileNameSuffixKey := ".csv"],
      PostProcName := map[ExecPathKey := "/opt/ftpp"]])

  /** The as-written resolver accepts an empty raw file name suffix, which the
      intended one rejects. */
  lemma EmptyRawSuffixAccepted()
    ensures Validate(EmptyRawSuffixIni).Ok?
    ensures Validate(EmptyRawSuffixIni).value.rawFiles.fileNameSuffix == ""
    ensures ValidateIntended(EmptyRawSuffixIni) == Err(EmptyValue(RawFilesName, FileNameSuffixKey))
  {
  }

  /** Diagnostics printed when the verbose flag is set. */
  datatype Diagnostic =
    | ConfigDump(filesRead: seq<string>, sections: map<string, map<string, string>>)
    | ErrorReport(error: ConfigError)
    | SettingsDump(settings: Settings)

  datatype Trace = Trace(result: Result<Settings, ConfigError>, log: seq<Diagnostic>)

  /** Resolution with its diagnostics: when verbose, the merged configuration
      is dumped once a file was read, then either the error that stopped the
      run or the retrieved settings are reported. */
  function Resolve(ini: IniData, verbose: bool): (t: Trace)
    ensures t.result == Validate(ini)
    ensures !verbose <==> t.log == []
    ensures verbose && t.result.Err? ==> t.log[|t.log| - 1] == ErrorReport(t.result.error)
    ensures verbose && t.result.Ok? ==> t.log[|t.log| - 1] == SettingsDump(t.result.value)
  {
    var r := Validate(ini);
    var dump := if ini.filesRead == [] then [] else [ConfigDump(ini.filesRead, ini.sections)];
    var closing := match r case Ok(s) => SettingsDump(s) case Err(e) => ErrorReport(e);
    Trace(r, if verbose then dump + [closing] else [])
  }

  /** The verbose flag changes only the diagnostics: whether resolution
      stops, and with which error, is the same either way. This holds
      because option values are taken as already interpolated; in the script
      the verbose dump reads every option of every section, so a value with
      a bare `%` can raise there and stop a verbose run early. */
  lemma VerboseOnlyAffectsDiagnostics(ini: IniData)
    ensures Resolve(ini, true).result == Resolve(ini, false).result
    ensures Resolve(ini, false).log == []
  {
  }
}
