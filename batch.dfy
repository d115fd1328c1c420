/**
 * `BatchBuilder` (build.js): a description whose `batch_build` lists other descriptions.
 * Each listed description is built in order, with its own `-variable` parameters when the
 * entry gives an option string and with the batch's otherwise. Without `--nofail` the
 * first failing build stops the batch; with it every build runs and the failures are
 * counted.
 */
module Batches {
  import opened Wrappers
  import opened Strings
  import opened Paths
  import opened FileSystem
  import opened ExternalTools
  import opened BuildConfiguration
  import opened Manifests
  import opened Effects
  import opened BuildSpec
  import opened Builds

  /** The `--nofail` option. */
  const NoFail := "nofail"

  function CannotFind(file: string): string {
    "Cannot find file: " + file
  }

  /** The nested-batch error as build.js:1124 writes it: a single-quoted literal, so the
      placeholder is never filled in. */
  function NestedBatchAsWritten(file: string): string {
    "Cannot have nested batch builds: ${build_instr_file}!"
  }

  /** The nested-batch error naming the offending description, as intended. */
  function NestedBatch(file: string): string {
    "Cannot have nested batch builds: " + file + "!"
  }

  /** The as-written message is the same for every description, so it cannot tell which
      entry of the batch was itself a batch; the intended one names it. */
  lemma NestedBatchMessage(a: string, b: string)
    requires a != b
    ensures NestedBatchAsWritten(a) == NestedBatchAsWritten(b)
    ensures NestedBatch(a) != NestedBatch(b)
    ensures Contains(NestedBatch(a), a)
  {
    var prefix := "Cannot have nested batch builds: ";
    assert NestedBatch(a)[|prefix|..|prefix| + |a|] == a;
    assert OccursAt(NestedBatch(a), a, |prefix|);
  }

  /** One build of the batch: the description's path and its `-variable` parameters. */
  datatype Job = Job(file: string, variables: seq<string>)

  /** `-name` tokens of an option string with the dash removed; other tokens are dropped. */
  function OptionParams(tokens: seq<string>): (r: seq<string>)
    ensures |r| <= |tokens|
    decreases |tokens|
  {
    if tokens == [] then []
    else
      var t := tokens[|tokens| - 1];
      OptionParams(tokens[..|tokens| - 1]) + (if |t| >= 2 && t[0] == '-' then [t[1..]] else [])
  }

  /** An entry's parameters: its own option string when it has a non-empty one, the
      batch's `-variable` parameters otherwise. */
  function EntryVariables(entry: BatchEntry, variables: seq<string>): seq<string> {
    if entry.options.Some? && entry.options.value != "" then OptionParams(SplitWs(Trim(entry.options.value)))
    else variables
  }

  /** The job of one entry; an empty file name is skipped. */
  function JobOf(baseDir: string, entry: BatchEntry, variables: seq<string>): Option<Job> {
    if entry.file == [] then None
    else Some(Job(PathString(Join(Parse(baseDir), Parse(entry.file))), EntryVariables(entry, variables)))
  }

  /** `_buildBatchManifest` */
  function BatchManifest(baseDir: string, listing: seq<BatchEntry>, variables: seq<string>): seq<Job>
    decreases |listing|
  {
    if listing == [] then []
    else
      var job := JobOf(baseDir, listing[|listing| - 1], variables);
      BatchManifest(baseDir, listing[..|listing| - 1], variables) + (if job.Some? then [job.value] else [])
  }

  /** `_buildOne`: the description must exist, load, and not be a batch itself; then it is
      built with the job's parameters. */
  function JobOutcome(env: Environment, job: Job): Outcome {
    if !NameExists(env.fs, job.file) then Outcome([], Some(CannotFind(job.file)))
    else
      match ConfigFile(env.fs, env.tools, job.file)
      case Err(e) => Outcome([], Some(e))
      case Ok(data) =>
        if data.Batch? then Outcome([], Some(NestedBatch(job.file)))
        else
          match LayoutOf(StrDir(job.file), data.sourceDir, data.destinationDir)
          case Err(e) => Outcome([], Some(e))
          case Ok(layout) => SingleBuild(env, layout, data, job.variables)
  }

  /** What a batch did: the builds' logs, the error that stopped it, and the counts. */
  datatype BatchResult = BatchResult(effects: seq<Effect>, error: Option<string>, successes: nat, failures: nat)

  /** The builds' outcomes, run in order. A failure stops the batch unless `nofail` is set,
      in which case it is counted and the next build runs. */
  function RunJobs(outcomes: seq<Outcome>, nofail: bool): BatchResult
    decreases |outcomes|
  {
    if outcomes == [] then BatchResult([], None, 0, 0)
    else
      var o := outcomes[0];
      if o.error.Some? && !nofail then BatchResult(o.effects, o.error, 0, 0)
      else
        var rest := RunJobs(outcomes[1..], nofail);
        BatchResult(o.effects + rest.effects, rest.error,
          rest.successes + (if o.error.None? then 1 else 0),
          rest.failures + (if o.error.Some? then 1 else 0))
  }

  /** What each job's build does. */
  function Outcomes(env: Environment, jobs: seq<Job>): (r: seq<Outcome>)
    ensures |r| == |jobs| && forall i :: 0 <= i < |jobs| ==> r[i] == JobOutcome(env, jobs[i])
  {
    seq(|jobs|, i requires 0 <= i < |jobs| => JobOutcome(env, jobs[i]))
  }

  /** A run's result with some builds already done in front of it. */
  function After(done: BatchResult, rest: BatchResult): BatchResult {
    BatchResult(done.effects + rest.effects, rest.error, done.successes + rest.successes, done.failures + rest.failures)
  }

  /** The whole batch from its description and the command line's parameters. */
  function BatchBuild(env: Environment, baseDir: string, listing: seq<BatchEntry>, options: seq<string>, variables: seq<string>): BatchResult {
    RunJobs(Outcomes(env, BatchManifest(baseDir, listing, variables)), NoFail in options)
  }

  /** With `nofail` the batch never fails, and every build is counted once, as a success or
      as a failure; the failures are exactly the builds that fail. */
  lemma {:induction false} NoFailAccounts(outcomes: seq<Outcome>)
    ensures var r := RunJobs(outcomes, true);
      r.error.None? && r.successes + r.failures == |outcomes| && r.failures == Failing(outcomes)
    decreases |outcomes|
  {
    if outcomes != [] {
      NoFailAccounts(outcomes[1..]);
      FailingCons(outcomes);
    }
  }

  /** The number of failed builds, counted from the back. */
  function Failing(outcomes: seq<Outcome>): nat
    decreases |outcomes|
  {
    if outcomes == [] then 0
    else Failing(outcomes[..|outcomes| - 1]) + (if outcomes[|outcomes| - 1].error.Some? then 1 else 0)
  }

  lemma {:induction false} FailingCons(outcomes: seq<Outcome>)
    requires outcomes != []
    ensures Failing(outcomes) == Failing(outcomes[1..]) + (if outcomes[0].error.Some? then 1 else 0)
    decreases |outcomes|
  {
    if |outcomes| > 1 {
      var init := outcomes[..|outcomes| - 1];
      FailingCons(init);
      assert init[1..] == outcomes[1..][..|outcomes[1..]| - 1];
    }
  }

  /** Without `nofail` nothing is counted as failed: either every build succeeded, or the
      builds before the first failure did and that failure's error is the batch's. */
  lemma {:induction false} StopsAtFirstFailure(outcomes: seq<Outcome>)
    ensures var r := RunJobs(outcomes, false);
      r.failures == 0 &&
      (r.error.None? ==> r.successes == |outcomes| && forall k :: 0 <= k < |outcomes| ==> outcomes[k].error.None?) &&
      (r.error.Some? ==> (r.successes < |outcomes| && outcomes[r.successes].error == r.error &&
        forall k :: 0 <= k < r.successes ==> outcomes[k].error.None?))
    decreases |outcomes|
  {
    if outcomes != [] {
      StopsAtFirstFailure(outcomes[1..]);
      assert forall k :: 1 <= k < |outcomes| ==> outcomes[1..][k - 1] == outcomes[k];
    }
  }

  /** The batch manifest keeps one job per entry with a file name, in order. */
  lemma {:induction false} ManifestSkipsEmpty(baseDir: string, listing: seq<BatchEntry>, variables: seq<string>)
    ensures |BatchManifest(baseDir, listing, variables)| == |Named(listing)|
    ensures forall i :: 0 <= i < |Named(listing)| ==>
      BatchManifest(baseDir, listing, variables)[i] ==
        Job(PathString(Join(Parse(baseDir), Parse(Named(listing)[i].file))), EntryVariables(Named(listing)[i], variables))
    decreases |listing|
  {
    if listing != [] {
      ManifestSkipsEmpty(baseDir, listing[..|listing| - 1], variables);
    }
  }

  /** The entries with a file name. */
  function Named(listing: seq<BatchEntry>): (r: seq<BatchEntry>)
    ensures forall i :: 0 <= i < |r| ==> r[i].file != []
    decreases |listing|
  {
    if listing == [] then []
    else
      var last := listing[|listing| - 1];
      Named(listing[..|listing| - 1]) + (if last.file != [] then [last] else [])
  }

  /** An option string's parameters are its dash-led tokens, without the dash; a string of
      bare words gives none. */
  lemma {:induction false} OptionParamsOf(tokens: seq<string>)
    ensures forall p :: p in OptionParams(tokens) ==> "-" + p in tokens
    ensures (forall k :: 0 <= k < |tokens| ==> tokens[k] == [] || tokens[k][0] != '-') ==> OptionParams(tokens) == []
    decreases |tokens|
  {
    if tokens != [] {
      var init := tokens[..|tokens| - 1];
      var t := tokens[|tokens| - 1];
      OptionParamsOf(init);
      assert forall x :: x in init ==> x in tokens;
      if |t| >= 2 && t[0] == '-' {
        assert "-" + t[1..] == t;
      }
    }
  }

  /** The builds before index i are done, with the result `done`, and the rest of the run
      completes it to the whole run. */
  ghost predicate Resumes(done: BatchResult, outcomes: seq<Outcome>, i: nat, nofail: bool)
    requires i <= |outcomes|
  {
    done.error.None? && After(done, RunJobs(outcomes[i..], nofail)) == RunJobs(outcomes, nofail)
  }

  /** The result after one more build that does not stop the batch. */
  function Next(done: BatchResult, o: Outcome): BatchResult {
    BatchResult(done.effects + o.effects, None,
      done.successes + (if o.error.None? then 1 else 0), done.failures + (if o.error.Some? then 1 else 0))
  }

  /** The result when a build stops the batch. */
  function Stopped(done: BatchResult, o: Outcome): BatchResult {
    BatchResult(done.effects + o.effects, o.error, done.successes, done.failures)
  }

  /** One more build run: the batch either stops with its error or goes on. */
  lemma RunJobsStep(outcomes: seq<Outcome>, nofail: bool, i: nat, done: BatchResult)
    requires i < |outcomes| && Resumes(done, outcomes, i, nofail)
    ensures outcomes[i].error.Some? && !nofail ==> RunJobs(outcomes, nofail) == Stopped(done, outcomes[i])
    ensures !(outcomes[i].error.Some? && !nofail) ==> Resumes(Next(done, outcomes[i]), outcomes, i + 1, nofail)
  {
    assert outcomes[i..][1..] == outcomes[i + 1..];
    var o := outcomes[i];
    var rest := RunJobs(outcomes[i + 1..], nofail);
    if !(o.error.Some? && !nofail) {
      assert done.effects + (o.effects + rest.effects) == (done.effects + o.effects) + rest.effects;
    }
  }

  /** Nothing done yet: the whole run is still ahead. */
  lemma RunJobsStart(outcomes: seq<Outcome>, nofail: bool)
    ensures Resumes(BatchResult([], None, 0, 0), outcomes, 0, nofail)
  {
    assert outcomes[0..] == outcomes;
    var r := RunJobs(outcomes, nofail);
    assert [] + r.effects == r.effects;
  }

  /** Every build done: the run is what was done. */
  lemma RunJobsEnd(outcomes: seq<Outcome>, nofail: bool, done: BatchResult)
    requires Resumes(done, outcomes, |outcomes|, nofail)
    ensures RunJobs(outcomes, nofail) == done
  {
    assert outcomes[|outcomes|..] == [];
    assert done.effects + [] == done.effects;
  }

  /** `_buildOne` as a method: check, load, refuse a nested batch, build with a new
      builder. */
  method BuildOne(env: Environment, job: Job) returns (o: Outcome)
    requires Valid(env.fs)
    ensures o == JobOutcome(env, job)
  {
    if !NameExists(env.fs, job.file) {
      return Outcome([], Some(CannotFind(job.file)));
    }
    var config := LoadBuildConfig(env.fs, env.tools, job.file);
    if config.Err? {
      return Outcome([], Some(config.error));
    }
    if config.value.isBatch {
      return Outcome([], Some(NestedBatch(job.file)));
    }
    var builder := NewBuilder(env, config.value, job.variables);
    if builder.Err? {
      return Outcome([], Some(builder.error));
    }
    var error := builder.value.Build();
    assert builder.value.effects == [] + builder.value.effects;
    return Outcome(builder.value.effects, error);
  }

  class BatchBuilder {
    const env: Environment
    /** The batch description's own directory. */
    const baseDir: string
    const listing: seq<BatchEntry>
    /** The `--option` and `-variable` parameters of the command line. */
    const options: seq<string>
    const variables: seq<string>
    var manifest: seq<Job>
    var effects: seq<Effect>
    var successes: nat
    var failures: nat

    constructor (env: Environment, config: BuildConfig, options: seq<string>, variables: seq<string>)
      requires config.isBatch
      ensures this.env == env && baseDir == config.baseDir && listing == config.batchListing
      ensures this.options == options && this.variables == variables
      ensures manifest == [] && effects == [] && successes == 0 && failures == 0
    {
      this.env := env;
      baseDir := config.baseDir;
      listing := config.batchListing;
      this.options := options;
      this.variables := variables;
      manifest := [];
      effects := [];
      successes := 0;
      failures := 0;
    }

    /** `_buildBatchManifest`: one job pushed per entry with a file name. */
    method BuildBatchManifest()
      modifies this
      ensures manifest == BatchManifest(baseDir, listing, variables)
      ensures effects == old(effects) && successes == old(successes) && failures == old(failures)
    {
      manifest := [];
      for i := 0 to |listing|
        invariant manifest == BatchManifest(baseDir, listing[..i], variables)
        invariant effects == old(effects) && successes == old(successes) && failures == old(failures)
      {
        assert listing[..i + 1][..i] == listing[..i];
        var entry := listing[i];
        if entry.file != [] {
          var jobVariables := variables;
          if entry.options.Some? && entry.options.value != "" {
            jobVariables := ParseOptions(entry.options.value);
          }
          manifest := manifest + [Job(PathString(Join(Parse(baseDir), Parse(entry.file))), jobVariables)];
        }
      }
      assert listing[..|listing|] == listing;
    }

    /** `build`: the manifest, then the jobs in order. */
    method Build() returns (error: Option<string>)
      requires Valid(env.fs)
      modifies this
      ensures var r := BatchBuild(env, baseDir, listing, options, variables);
        effects == old(effects) + r.effects && error == r.error &&
        successes == r.successes && failures == r.failures
    {
      BuildBatchManifest();
      var r := RunBatch(env, manifest, NoFail in options);
      effects := effects + r.effects;
      successes, failures := r.successes, r.failures;
      error := r.error;
    }
  }

  /** The job loop of `build`: each job's index is taken before it runs; a failure ends
      the loop unless `nofail` is set, when it is counted and the next job runs. */
  method RunBatch(env: Environment, jobs: seq<Job>, nofail: bool) returns (r: BatchResult)
    requires Valid(env.fs)
    ensures r == RunJobs(Outcomes(env, jobs), nofail)
  {
    ghost var outcomes := Outcomes(env, jobs);
    r := BatchResult([], None, 0, 0);
    var index := 0;
    RunJobsStart(outcomes, nofail);
    while index < |jobs|
      invariant index <= |jobs| && Resumes(r, outcomes, index, nofail)
      decreases |jobs| - index
    {
      var current := index;
      index := index + 1;
      var o := BuildOne(env, jobs[current]);
      assert o == outcomes[current];
      RunJobsStep(outcomes, nofail, current, r);
      if o.error.Some? && !nofail {
        return Stopped(r, o);
      }
      r := Next(r, o);
    }
    RunJobsEnd(outcomes, nofail, r);
  }

  /** An entry's option string split on whitespace, its dash-led tokens kept without the
      dash. */
  method ParseOptions(s: string) returns (r: seq<string>)
    ensures r == OptionParams(SplitWs(Trim(s)))
  {
    var tokens := SplitWs(Trim(s));
    r := KeepDashed(tokens);
  }

  method KeepDashed(tokens: seq<string>) returns (r: seq<string>)
    ensures r == OptionParams(tokens)
  {
    r := [];
    for i := 0 to |tokens|
      invariant r == OptionParams(tokens[..i])
    {
      assert tokens[..i + 1][..i] == tokens[..i];
      var t := tokens[i];
      if |t| >= 2 && t[0] == '-' {
        r := r + [t[1..]];
      }
    }
    assert tokens[..|tokens|] == tokens;
  }
}
