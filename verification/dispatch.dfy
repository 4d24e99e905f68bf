/** The batch step: select the listed file names that match the raw naming
    pattern and derive each one's destination file name. */
module Dispatch {
  import opened Config
  import Pattern

  /** One selected file: its name in the unprocessed folder and the name of
      the file to be created in the destination folder. */
  datatype Job = Job(source: string, dest: string)

  /** The name-trimming collaborator: (name, prefix, suffix) to core name.
      It is taken to be total and pure: it never raises and its result
      depends on its arguments alone; nothing else is assumed of it. */
  type Trim = (string, string, string) -> string

  /** The export prefix, the core name and the export suffix, in that order. */
  function DestName(exportFile: ExportFile, core: string): (r: string)
    ensures |r| == |exportFile.fileNamePrefix| + |core| + |exportFile.fileNameSuffix|
    ensures r[..|exportFile.fileNamePrefix|] == exportFile.fileNamePrefix
    ensures r[|exportFile.fileNamePrefix|..|r| - |exportFile.fileNameSuffix|] == core
    ensures r[|r| - |exportFile.fileNameSuffix|..] == exportFile.fileNameSuffix
  {
    exportFile.fileNamePrefix + core + exportFile.fileNameSuffix
  }

  /** The name matches the pattern built from the raw prefix and suffix. */
  predicate Selected(s: Settings, name: string) {
    Pattern.Matches(name, s.rawFiles.fileNamePrefix, s.rawFiles.fileNameSuffix)
  }

  /** The core name of a selected file, as the trimming collaborator gives it. */
  function CoreName(s: Settings, trim: Trim, name: string): string {
    trim(name, s.rawFiles.fileNamePrefix, s.rawFiles.fileNameSuffix)
  }

  /** The jobs for a directory listing, in listing order. */
  function Jobs(s: Settings, trim: Trim, listing: seq<string>): (jobs: seq<Job>)
    ensures |jobs| <= |listing|
    ensures forall k :: 0 <= k < |jobs| ==>
              && jobs[k].source in listing
              && Selected(s, jobs[k].source)
              && jobs[k].dest == DestName(s.exportFile, CoreName(s, trim, jobs[k].source))
  {
    if listing == [] then []
    else
      var head := if Selected(s, listing[0])
                  then [Job(listing[0], DestName(s.exportFile, CoreName(s, trim, listing[0])))]
                  else [];
      head + Jobs(s, trim, listing[1..])
  }

  /** The source names of a sequence of jobs. */
  function Sources(jobs: seq<Job>): seq<string> {
    seq(|jobs|, k requires 0 <= k < |jobs| => jobs[k].source)
  }

  /** `a` is `b` with some elements left out, the rest kept in order. */
  predicate IsSubsequence<T(==)>(a: seq<T>, b: seq<T>)
    decreases |b|
  {
    || a == []
    || (&& b != []
        && ((a[0] == b[0] && IsSubsequence(a[1..], b[1..])) || IsSubsequence(a, b[1..])))
  }

  /** The jobs follow the listing: their sources are a subsequence of it. */
  lemma {:induction false} JobsKeepListingOrder(s: Settings, trim: Trim, listing: seq<string>)
    ensures IsSubsequence(Sources(Jobs(s, trim, listing)), listing)
  {
    var names := Sources(Jobs(s, trim, listing));
    if listing != [] {
      var x := listing[0];
      var head := if Selected(s, x) then [Job(x, DestName(s.exportFile, CoreName(s, trim, x)))] else [];
      var restNames := Sources(Jobs(s, trim, listing[1..]));
      JobsKeepListingOrder(s, trim, listing[1..]);
      SourcesAppend(head, Jobs(s, trim, listing[1..]));
      assert names == Sources(head) + restNames;
      if Selected(s, x) {
        assert Sources(head) == [x];
        assert names[0] == listing[0] && names[1..] == restNames;
      } else {
        assert names == restNames;
      }
    }
  }

  /** Every selected name of the listing appears among the jobs exactly as
      often as in the listing, and no other name appears at all: nothing is
      dropped and no duplicate is added. */
  lemma {:induction false} JobsSelectExactly(s: Settings, trim: Trim, listing: seq<string>, name: string)
    ensures multiset(Sources(Jobs(s, trim, listing)))[name]
         == if Selected(s, name) then multiset(listing)[name] else 0
  {
    var names := Sources(Jobs(s, trim, listing));
    if listing == [] {
      assert names == [];
    } else {
      var x := listing[0];
      var head := if Selected(s, x) then [Job(x, DestName(s.exportFile, CoreName(s, trim, x)))] else [];
      var restNames := Sources(Jobs(s, trim, listing[1..]));
      JobsSelectExactly(s, trim, listing[1..], name);
      SourcesAppend(head, Jobs(s, trim, listing[1..]));
      assert names == Sources(head) + restNames;
      CountCons(x, listing[1..], name);
      assert listing == [x] + listing[1..];
      var fromHead := if Selected(s, x) && x == name then 1 else 0;
      if Selected(s, x) {
        assert Sources(head) == [x];
        CountCons(x, restNames, name);
      } else {
        assert names == restNames;
      }
      assert multiset(names)[name] == fromHead + multiset(restNames)[name];
    }
  }

  /** `JobsSelectExactly` for every name at once. */
  lemma JobsSelectAll(s: Settings, trim: Trim, listing: seq<string>)
    ensures forall name :: multiset(Sources(Jobs(s, trim, listing)))[name]
                        == if Selected(s, name) then multiset(listing)[name] else 0
  {
    forall name {
      JobsSelectExactly(s, trim, listing, name);
    }
  }

  lemma CountCons(x: string, xs: seq<string>, name: string)
    ensures multiset([x] + xs)[name] == (if x == name then 1 else 0) + multiset(xs)[name]
  {
  }

  lemma SourcesAppend(a: seq<Job>, b: seq<Job>)
    ensures Sources(a + b) == Sources(a) + Sources(b)
  {
  }

  /** No job is made exactly when no listed name is selected; in particular
      an empty listing makes no job. */
  lemma {:induction false} NoJobsIffNothingSelected(s: Settings, trim: Trim, listing: seq<string>)
    ensures Jobs(s, trim, listing) == [] <==> forall k :: 0 <= k < |listing| ==> !Selected(s, listing[k])
  {
    if listing != [] {
      NoJobsIffNothingSelected(s, trim, listing[1..]);
      assert forall k :: 1 <= k < |listing| ==> listing[k] == listing[1..][k - 1];
    }
  }

  /** Jobs for a listing split in two are the jobs of each part in turn. */
  lemma {:induction false} JobsAppend(s: Settings, trim: Trim, a: seq<string>, b: seq<string>)
    ensures Jobs(s, trim, a + b) == Jobs(s, trim, a) + Jobs(s, trim, b)
  {
    if a == [] {
      assert a + b == b;
    } else {
      assert (a + b)[0] == a[0];
      assert (a + b)[1..] == a[1..] + b;
      JobsAppend(s, trim, a[1..], b);
    }
  }

  /** The loop of the script: walk the listing, search each name for the
      pattern, and emit the source and destination name of every match. */
  method Dispatch(s: Settings, trim: Trim, listing: seq<string>) returns (jobs: seq<Job>)
    ensures jobs == Jobs(s, trim, listing)
  {
    jobs := [];
    var i := 0;
    while i < |listing|
      invariant 0 <= i <= |listing|
      invariant jobs == Jobs(s, trim, listing[..i])
    {
      var name := listing[i];
      var found := Pattern.Search(name, s.rawFiles.fileNamePrefix, s.rawFiles.fileNameSuffix);
      JobsAppend(s, trim, listing[..i], [name]);
      assert listing[..i + 1] == listing[..i] + [name];
      if found {
        var core := trim(name, s.rawFiles.fileNamePrefix, s.rawFiles.fileNameSuffix);
        jobs := jobs + [Job(name, s.exportFile.fileNamePrefix + core + s.exportFile.fileNameSuffix)];
      }
      i := i + 1;
    }
    assert listing[..i] == listing;
  }
}
