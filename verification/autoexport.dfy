/** One run of the script: resolve the configuration, then, only if that
    succeeded, list the unprocessed folder and derive the jobs. */
module AutoExport {
  import opened Results
  import opened Config
  import Paths
  import Dispatch

  /** The directory-listing collaborator: folder path to file names. It is
      taken to be total and pure: it never raises (a missing folder is not
      modelled) and the listing depends on the path alone. */
  type ListFiles = string -> seq<string>

  /** What a run produces: the resolution trace and the (source, destination)
      name pairs the loop emits. */
  datatype RunReport = RunReport(trace: Trace, jobs: seq<Dispatch.Job>)

  /** The run: on a configuration error nothing is listed and no pair is
      emitted; otherwise the unprocessed folder is listed and exactly its
      matching names, in listing order and with their multiplicity, yield a
      pair whose destination is built from the trimmed core name. */
  function Run(ini: IniData, verbose: bool, listFiles: ListFiles, trim: Dispatch.Trim): (r: RunReport)
    ensures r.trace == Resolve(ini, verbose)
    ensures r.trace.result.Err? ==> r.jobs == []
    ensures r.trace.result.Ok? ==>
              var s := r.trace.result.value;
              var listing := listFiles(s.rawFiles.unprocessedPath);
              && Paths.EndsWithSeparator(s.rawFiles.unprocessedPath)
              && |r.jobs| <= |listing|
              && Dispatch.IsSubsequence(Dispatch.Sources(r.jobs), listing)
              && (forall name :: multiset(Dispatch.Sources(r.jobs))[name]
                                 == if Dispatch.Selected(s, name) then multiset(listing)[name] else 0)
              && (forall k :: 0 <= k < |r.jobs| ==>
                    r.jobs[k].dest == Dispatch.DestName(s.exportFile, Dispatch.CoreName(s, trim, r.jobs[k].source)))
  {
    var trace := Resolve(ini, verbose);
    match trace.result
    case Err(_) => RunReport(trace, [])
    case Ok(s) =>
      var listing := listFiles(s.rawFiles.unprocessedPath);
      Dispatch.JobsKeepListingOrder(s, trim, listing);
      Dispatch.JobsSelectAll(s, trim, listing);
      RunReport(trace, Dispatch.Jobs(s, trim, listing))
  }

  /** The verbose flag changes neither the outcome of resolution nor the jobs.
      This holds because option values are taken as already interpolated;
      in the script the verbose dump reads every option of every section,
      so a value with a bare `%` can raise there and stop a verbose run
      that a quiet run would complete. */
  lemma RunIgnoresVerbose(ini: IniData, listFiles: ListFiles, trim: Dispatch.Trim)
    ensures Run(ini, true, listFiles, trim).trace.result == Run(ini, false, listFiles, trim).trace.result
    ensures Run(ini, true, listFiles, trim).jobs == Run(ini, false, listFiles, trim).jobs
  {
  }
}
