# autoExport — configuration resolution and batch selection in Dafny

`autoExport.py` reads an INI configuration describing where raw data files
arrive (`[rawFiles]`), how exported files are named (`[exportFile]`) and where
the `ftArchPostProc` post-processor lives (`[ftArchPostProc]`). It validates
that configuration section by section, quitting at the first problem, then
lists the unprocessed folder. It selects the files whose names match
`rawPrefix + '[\w, ]*' + rawSuffix`, and for each one it prints the source
name and the destination name `exportPrefix + core + exportSuffix`.

This project models those two pure pieces:

- `Config` (config.dfy) is the resolver. It is a total function from the
  merged INI data (the files read, plus section → option → value) to
  `Result<Settings, ConfigError>`. Missing options and empty options are
  reported as different errors. Path-like values get a trailing `/` in the way
  `os.path.join(p, '')` adds one (`Paths`, paths.dfy). The verbose flag is
  modelled as a log of diagnostics beside the result.
- `Schedule` (schedule.dfy) is an independent, table-driven statement of the
  order of the checks. It is a list scanned front to back, and it is proved to
  pick the same error as the resolver's nested checks.
- `Pattern` (pattern.dfy) states the regular-expression search as a predicate
  over match spans. It also gives a search method proved equivalent to that
  predicate.
- `Dispatch` (dispatch.dfy) is the filter-map from a directory listing to
  `(source, destination)` name pairs. It has lemmas on order, multiplicity and
  emptiness.
- `AutoExport` (autoexport.dfy) composes the pieces into one run.

The directory listing (`listFiles`) and the name trimmer (`trimPrefixSuffix`)
come from modules that are not part of this model. They appear as function
parameters. They are taken to be total and pure: they never raise, and their
results depend on their arguments alone. Nothing else is assumed about them.

What the script does, as modelled:

- The `[ftArchPostProc]` section has one option, `execPath`. It gets a
  trailing `/` like the three folder paths do.
- `os.path.join(p, '')` only appends a missing `/`. `data//` stays `data//`.
- Emptiness is tested with `== ''`. The INI parser has already stripped
  surrounding whitespace.
- An empty raw `fileNameSuffix` is accepted (see Findings).

## Model

| member | source | states |
|---|---|---|
| Paths.JoinEmpty | autoExport.py:219-220 | the input is a prefix of the result, which is at most one character longer; a non-empty input comes back ending in `/`; the input is returned unchanged exactly when it is empty or already ends in `/` |
| Paths.JoinEmptyIdempotent | autoExport.py:289-290 | normalising a path twice gives the same result as normalising it once |
| Paths.JoinEmptyKeepsRepeatedSeparators | autoExport.py:343-344 | a path that already ends in `//` is returned unchanged; repeated separators are not collapsed |
| Config.RequireOption | autoExport.py:281-295 | a required option succeeds exactly when it is present and non-empty, and yields its value verbatim; an absent option gives `MissingKey` and an empty one gives `EmptyValue`, never the other way round |
| Config.ValidateRawFiles | autoExport.py:208-273 | the `rawFiles` block passes exactly when its section is present, the two paths and the prefix are present and non-empty, and the suffix is present (non-empty too under the corrected test); the result holds both paths joined and the prefix and suffix verbatim; an error names what is really absent or empty |
| Config.RequireRawSuffix | autoExport.py:255-267 | a missing raw suffix gives `MissingKey`; the emptiness test rejects when the value it looks at (the prefix as written, the suffix as intended) is empty; on success the suffix is returned verbatim |
| Config.ValidateExportFile | autoExport.py:278-327 | the `exportFile` block passes exactly when its section and its three options are present and non-empty; the destination path is joined and the name prefix and suffix are stored verbatim |
| Config.ValidatePostProc | autoExport.py:332-355 | the `ftArchPostProc` block passes exactly when `execPath` is present and non-empty, and the stored path is the joined value |
| Config.Validate | autoExport.py:188-355 | resolution succeeds exactly when a file was read, all three sections and all eight options are present, and every value except the raw fileNameSuffix is non-empty; on success the four paths equal their joined values and end in `/`, while prefixes and suffixes are stored verbatim; every error truthfully describes the configuration; a missing `rawFiles` section is reported whatever else is wrong |
| Config.ValidateIntended | autoExport.py:255-262 | the corrected resolver succeeds exactly when every required option, including the raw fileNameSuffix, is present and non-empty; a success never carries an empty raw suffix |
| Config.IntendedDiffersOnlyOnEmptyRawSuffix | autoExport.py:256-262 | the as-written and corrected resolvers differ exactly when the raw section is complete up to an empty fileNameSuffix; the corrected one then reports `EmptyValue(rawFiles, fileNameSuffix)` |
| Config.EmptyRawSuffixAccepted | autoExport.py:258-262 | a configuration with `fileNameSuffix=` empty resolves to settings with an empty raw suffix, while the corrected resolver rejects it |
| Config.Resolve | autoExport.py:191-203 | the result is the validation result whatever the verbose flag; without verbose there is no diagnostic; with verbose the last diagnostic reports the stopping error or the retrieved settings |
| Config.VerboseOnlyAffectsDiagnostics | autoExport.py:213-225 | with verbose on or off, resolution stops or succeeds identically and with the same error; verbose off emits nothing |
| Schedule.FirstError | autoExport.py:208-273 | the scan yields nothing exactly when every check passes; otherwise it yields the error of a check that fails while every earlier check passes |
| Schedule.FirstErrorAppend | autoExport.py:275-278 | scanning two check lists in sequence reports the first list's error if it has one, else the second's |
| Schedule.ValidateFollowsOrder | autoExport.py:205-355 | the nested checks report exactly the first failing check of the order: read, `rawFiles` (unprocessedPath, processedPath, fileNamePrefix, fileNameSuffix), `exportFile` (destinationPath, fileNamePrefix, fileNameSuffix), `ftArchPostProc` (execPath), presence before emptiness; they succeed exactly when none fails |
| Pattern.Search | autoExport.py:372-374 | the search answers true exactly when some span of the name is the prefix, then a run of class characters, then the suffix |
| Pattern.MatchesAnywhere | autoExport.py:367-374 | prefix, class run and suffix embedded anywhere in a name make it match; with an empty run, prefix directly followed by suffix matches; the match is unanchored |
| Pattern.TooShortNeverMatches | autoExport.py:372 | a name shorter than prefix and suffix together never matches |
| Pattern.SampleNameSelected | autoExport.py:371-374 | `PREFIX_20240101_SUFFIX.csv` matches prefix `PREFIX_` and suffix `_SUFFIX.csv` |
| Pattern.OtherNameIgnored | autoExport.py:373-374 | `other.txt` does not match that pattern |
| Dispatch.DestName | autoExport.py:379-380 | the destination name starts with the export prefix, ends with the export suffix, holds the core name between them, and its length is the sum of the three |
| Dispatch.Jobs | autoExport.py:373-380 | there are no more jobs than listed names; every job's source is a listed, matching name, and its destination is built from that name's core |
| Dispatch.JobsKeepListingOrder | autoExport.py:373-374 | the sources of the jobs form a subsequence of the listing, so listing order is kept |
| Dispatch.JobsSelectExactly | autoExport.py:373-374 | each matching name occurs among the sources exactly as often as in the listing, and a non-matching name never occurs; no duplicate is added and no match is dropped |
| Dispatch.NoJobsIffNothingSelected | autoExport.py:367-374 | the output is empty exactly when no listed name matches, including the empty listing; this is not an error |
| Dispatch.JobsAppend | autoExport.py:373 | the jobs of a listing split in two are the jobs of each part, in order |
| Dispatch.Dispatch | autoExport.py:373-385 | the loop over the listing, using the search method, emits exactly the jobs of the functional definition |
| AutoExport.Run | autoExport.py:188-385 | a configuration error yields no jobs; otherwise the listing is taken from an unprocessed folder ending in `/`, the job sources are a subsequence of it, each matching name occurs among them exactly as often as in the listing and no other name occurs, and every destination is the export prefix, the trimmed core and the export suffix |
| AutoExport.RunIgnoresVerbose | autoExport.py:373-392 | the verbose flag changes neither the resolution outcome nor the emitted name pairs |

## Left out

- Argument parsing (argparse), the `-t/-a/-n` group and the defaults are library behaviour, so the model starts from parsed values.
- INI syntax and encoding are left out. So are option-name case folding, the DEFAULT section and the union of several files (last file wins). The model starts from the merged map and the list of files read.
- The `is None` half of each emptiness test is left out. With the parser's defaults a value is always a string.
- `listFiles` and `trimPrefixSuffix` are left out because their source is not part of this model. They are total, pure parameters with no contract.
- Exceptions from `listFiles` and `trimPrefixSuffix` are left out, because their source is not part of this model. An example is a missing unprocessed folder, which would stop the script with a traceback. Both are modelled as never raising, and the listing as depending on the path alone.
- The parser's `%` interpolation is left out. Values are taken as already interpolated. In the script, every `config[s][k]` read turns `%%` into `%` and raises on a bare `%`.
- Config.VerboseOnlyAffectsDiagnostics: holds only with interpolation left out. The verbose dump at autoExport.py:200-203 reads every option of every section, whereas a quiet run reads only the eight required ones. So a stray bare `%` (say `[notes] memo=50%`) stops a verbose run with an exception that a quiet run never hits. It can also hide a missing-key error that the quiet run would report.
- AutoExport.RunIgnoresVerbose: same gap. A verbose-only interpolation error at autoExport.py:200-203 stops the run before any pair is printed, while the quiet run prints them.
- Regular expressions in general are left out. Prefix and suffix are read as literal text, except that `.` matches any character but a newline. No other metacharacter is modelled, and `\w` is approximated as ASCII letters, digits and `_`.
- Timing, start/end/duration lines and the exact text of every message are left out. Diagnostics are modelled as a typed log.
- Running the post-processor, moving files to the processed folder and per-file error handling are not modelled, because the script only has TODO comments for them.
- Windows path separators are left out; only POSIX `/` is modelled.
- Pattern.Search: the regex engine would also report where the match is; only whether there is one matters to the script, so only that is modelled.

## Findings

| source | as written | input that shows it | evidently intended | confidence | as-written member | corrected member |
|---|---|---|---|---|---|---|
| autoExport.py:258 | the emptiness test for the raw `fileNameSuffix` re-tests `rawFileNamePrefix`, which line 245 already proved non-empty, so the test can never fail | `[rawFiles] fileNameSuffix=` (empty), everything else valid | reject it with an empty-value error for `rawFiles.fileNameSuffix` | high; not executed | Config.EmptyRawSuffixAccepted | Config.ValidateIntended |

`AutoExport.Run` models the script, so it uses the as-written `Config.Validate`.
`Config.IntendedDiffersOnlyOnEmptyRawSuffix` proves that the two resolvers
differ only on this input. Everything proved about `Dispatch` holds for
settings from either one.
