/** One labeling job per sample (`labelSampleWithOpenAI`) and the run over
    the id-sorted, limited list of samples.

    A job is two `retryWithTimeout` blocks: the first asks the model for a
    label and checks the response, the second writes the label back (or
    proposes it). The network is abstracted to a script: the outcome of each
    call to the model and of each attempt to write back. */
module Labeling {
  import opened Wrappers
  import opened Seqs
  import opened Sorting
  import opened Samples
  import opened Retry
  import opened Response
  import opened Settings
  import opened Progress

  const LabelPolicy := Policy("completions.create", 60000, 3)
  const UpdatePolicy := Policy("edgeimpulse.api", 60000, 3)

  // ---------------------------------------------------------------------------
  // --propose-actions

  /** `Number(program.proposeActions)`: an integer, or NaN when the argument
      is not numeric. */
  datatype JsNumber = Finite(n: int) | NaN

  /** `if (proposeActionsJobId)`: a job id that is given, a number, and not 0. */
  predicate Truthy(jobId: Option<JsNumber>) {
    jobId.Some? && jobId.value.Finite? && jobId.value.n != 0
  }

  /** `proposeActionsJobId && isNaN(proposeActionsJobId)`: whether the run is
      refused for a non-numeric job id, as written. */
  predicate RejectsJobIdAsWritten(jobId: Option<JsNumber>) {
    Truthy(jobId) && jobId.value.NaN?
  }

  /** NaN is falsy, so the check as written never refuses anything; and a
      run given a non-numeric job id is not in propose mode, so it applies
      its changes for real. */
  lemma NonNumericJobIdAccepted(jobId: Option<JsNumber>)
    ensures !RejectsJobIdAsWritten(jobId)
    ensures jobId == Some(NaN) ==> !Truthy(jobId)
  {
  }

  /** The check as intended: a job id that was given must be numeric. */
  predicate RejectsJobId(jobId: Option<JsNumber>) {
    jobId.Some? && jobId.value.NaN?
  }

  /** Once the intended check has passed, a given non-zero job id always
      selects propose mode, and no given job id is silently ignored except 0. */
  lemma AcceptedJobIdProposes(jobId: Option<JsNumber>)
    requires !RejectsJobId(jobId)
    ensures Truthy(jobId) <==> jobId.Some? && jobId.value != Finite(0)
  {
  }

  // ---------------------------------------------------------------------------
  // The update block

  /** The settings a job reads. */
  datatype Config = Config(
    prompt: string,
    disabledLabels: seq<string>,
    proposeJobId: Option<JsNumber>)

  /** One call of the second block to the remote store. */
  datatype Action =
    | ProposeChanges(jobId: int, isDisabled: Option<bool>, labelName: string, metadata: map<string, string>)
    | DisableSample
    | EditLabel(labelName: string)
    | SetMetadata(metadata: map<string, string>)

  /** `sample.metadata = sample.metadata || {}` followed by setting `reason`
      and `prompt`. */
  function UpdatedMetadata(metadata: Option<map<string, string>>, reply: Reply, prompt: string)
    : (m: map<string, string>)
    ensures "reason" in m && "prompt" in m && m["prompt"] == prompt && m["reason"] == reply.reason
    ensures metadata.Some? ==> forall k :: k in metadata.value && k != "reason" && k != "prompt" ==>
              k in m && m[k] == metadata.value[k]
    ensures forall k :: k in m && k != "reason" && k != "prompt" ==> metadata.Some? && k in metadata.value
  {
    metadata.GetOr(map[])["reason" := reply.reason]["prompt" := prompt]
  }

  /** A retry of the update block writes the same metadata: the sample's
      metadata was already updated by the attempt before. */
  lemma UpdateIsIdempotent(metadata: Option<map<string, string>>, reply: Reply, prompt: string)
    ensures UpdatedMetadata(Some(UpdatedMetadata(metadata, reply, prompt)), reply, prompt)
         == UpdatedMetadata(metadata, reply, prompt)
  {
    var m := UpdatedMetadata(metadata, reply, prompt);
    var m2 := UpdatedMetadata(Some(m), reply, prompt);
    assert m2.Keys == m.Keys;
  }

  /** The calls one attempt of the update block makes, in order. */
  function UpdateActions(sample: Sample, reply: Reply, config: Config): (actions: seq<Action>)
    ensures var metadata := UpdatedMetadata(sample.metadata, reply, config.prompt);
            Truthy(config.proposeJobId) ==>
              |actions| == 1 && actions[0].ProposeChanges?
              && actions[0].jobId == config.proposeJobId.value.n
              && actions[0].labelName == reply.labelName && actions[0].metadata == metadata
    ensures var metadata := UpdatedMetadata(sample.metadata, reply, config.prompt);
            !Truthy(config.proposeJobId) ==>
              2 <= |actions| <= 3
              && actions[|actions| - 2..] == [EditLabel(reply.labelName), SetMetadata(metadata)]
  {
    var metadata := UpdatedMetadata(sample.metadata, reply, config.prompt);
    var disable := IsDisabled(config.disabledLabels, reply.labelName);
    if Truthy(config.proposeJobId) then
      [ProposeChanges(config.proposeJobId.value.n, if disable then Some(true) else None, reply.labelName, metadata)]
    else
      (if disable then [DisableSample] else []) + [EditLabel(reply.labelName), SetMetadata(metadata)]
  }

  /** A sample is disabled, or proposed for disabling, exactly when the label
      is one of the disable labels; the label itself is always written or
      proposed, together with the updated metadata. */
  lemma DisableDecision(sample: Sample, reply: Reply, config: Config)
    ensures var actions := UpdateActions(sample, reply, config);
            var metadata := UpdatedMetadata(sample.metadata, reply, config.prompt);
            var disable := reply.labelName in config.disabledLabels;
            if Truthy(config.proposeJobId) then
              actions == [ProposeChanges(config.proposeJobId.value.n, actions[0].isDisabled, reply.labelName, metadata)]
              && (actions[0].isDisabled == Some(true) <==> disable)
              && (actions[0].isDisabled.None? <==> !disable)
            else
              (DisableSample in actions <==> disable)
              && actions[|actions| - 2..] == [EditLabel(reply.labelName), SetMetadata(metadata)]
              && (forall a :: a in actions ==> !a.ProposeChanges?)
  {
  }

  /** With the disable labels read from `--disable-labels`, a label that is
      not normal is never disabled nor proposed for disabling, whatever the
      argument. */
  lemma AbnormalLabelNeverDisabled(sample: Sample, reply: Reply, prompt: string, arg: Option<string>, jobId: Option<JsNumber>)
    requires !IsNormalLabel(reply.labelName)
    ensures var actions := UpdateActions(sample, reply, Config(prompt, DisableLabels(arg), jobId));
            DisableSample !in actions && (Truthy(jobId) ==> actions[0].isDisabled.None?)
  {
    OnlyNormalLabelsDisabled(arg, reply.labelName);
    KeptActions(sample, reply, Config(prompt, DisableLabels(arg), jobId));
  }

  /** A normal label given as the whole `--disable-labels` argument disables
      the samples it labels, or proposes to. */
  lemma NormalLabelArgumentDisables(sample: Sample, reply: Reply, prompt: string, jobId: Option<JsNumber>)
    requires IsNormalLabel(reply.labelName)
    ensures var actions := UpdateActions(sample, reply, Config(prompt, DisableLabels(Some(reply.labelName)), jobId));
            if Truthy(jobId) then actions[0].isDisabled == Some(true) else DisableSample in actions
  {
    NormalLabelDisablesItself(reply.labelName);
    DisabledActions(sample, reply, Config(prompt, DisableLabels(Some(reply.labelName)), jobId));
  }

  /** A label that is not a disable label is neither disabled nor proposed
      for disabling. */
  lemma KeptActions(sample: Sample, reply: Reply, config: Config)
    requires !IsDisabled(config.disabledLabels, reply.labelName)
    ensures var actions := UpdateActions(sample, reply, config);
            DisableSample !in actions && (Truthy(config.proposeJobId) ==> actions[0].isDisabled.None?)
  {
  }

  /** A disable label disables the sample, or proposes to. */
  lemma DisabledActions(sample: Sample, reply: Reply, config: Config)
    requires IsDisabled(config.disabledLabels, reply.labelName)
    ensures var actions := UpdateActions(sample, reply, config);
            if Truthy(config.proposeJobId) then actions[0].isDisabled == Some(true) else DisableSample in actions
  {
  }

  // ---------------------------------------------------------------------------
  // One job

  /** What one call to the model came to: a completion, a thrown error of the
      service (or of fetching the image), or no answer before the timer. */
  datatype Call = Answered(completion: Completion) | ServiceFailed(message: string) | NoAnswer

  /** The errors the first block's callback can throw. */
  datatype CallError = ServiceError(message: string) | BadResponse(e: ResponseError)

  /** One attempt of the first block: the call, then the checks. */
  function LabelAttempt(call: Call, parse: Parser): (o: Outcome<Reply, CallError>)
    ensures o.Ok? <==> call.Answered? && CheckCompletion(call.completion, parse).Ok?
    ensures o.Timeout? <==> call.NoAnswer?
    ensures o.Ok? ==> o.value == CheckCompletion(call.completion, parse).value
    ensures call.Answered? && CheckCompletion(call.completion, parse).Err? ==>
              o == Outcome.Err(BadResponse(CheckCompletion(call.completion, parse).error))
    ensures call.ServiceFailed? ==> o == Outcome.Err(ServiceError(call.message))
  {
    match call
    case Answered(c) =>
      (match CheckCompletion(c, parse)
       case Ok(reply) => Outcome.Ok(reply)
       case Err(e) => Outcome.Err(BadResponse(e)))
    case ServiceFailed(m) => Outcome.Err(ServiceError(m))
    case NoAnswer => Timeout
  }

  function LabelAttempts(calls: seq<Call>, parse: Parser): (os: seq<Outcome<Reply, CallError>>)
    ensures |os| == |calls|
    ensures forall i :: 0 <= i < |calls| ==> os[i] == LabelAttempt(calls[i], parse)
  {
    if calls == [] then [] else [LabelAttempt(calls[0], parse)] + LabelAttempts(calls[1..], parse)
  }

  /** How the world answers one job: the model calls of the first block and
      the write-back attempts of the second, in order. */
  datatype JobScript = JobScript(calls: seq<Call>, updates: seq<Outcome<(), string>>)

  /** Three attempts per block are enough to decide the job. */
  predicate Decided(script: JobScript) {
    |script.calls| >= LabelPolicy.maxRetries && |script.updates| >= UpdatePolicy.maxRetries
  }

  /** How a job ends. */
  datatype JobResult =
    | Labeled(reply: Reply, actions: seq<Action>)
    | LabelingFailed(labelFailure: Failure<CallError>)
    | UpdateFailed(reply: Reply, updateFailure: Failure<string>)

  /** The job's result: the first block's exit and, if it returned, the
      second block's exit. */
  function JobOutcome(sample: Sample, config: Config, parse: Parser, script: JobScript): (r: JobResult)
    requires Decided(script)
    ensures r.Labeled? ==> r.actions == UpdateActions(sample, r.reply, config)
    ensures r.Labeled? || r.UpdateFailed? ==>
              exists i :: 0 <= i < 3 && LabelAttempt(script.calls[i], parse) == Outcome.Ok(r.reply)
  {
    var first := Run(LabelPolicy, LabelAttempts(script.calls, parse));
    RunBounded(LabelPolicy, LabelAttempts(script.calls, parse));
    if first.exit.Returned? then
      var reply := first.exit.value;
      ReturnedByAnAttempt(LabelPolicy, LabelAttempts(script.calls, parse));
      var second := Run(UpdatePolicy, script.updates);
      RunBounded(UpdatePolicy, script.updates);
      if second.exit.Returned? then Labeled(reply, UpdateActions(sample, reply, config))
      else UpdateFailed(reply, second.exit.failure)
    else LabelingFailed(first.exit.failure)
  }

  /** `labelSampleWithOpenAI` up to the counters. */
  method LabelSample(sample: Sample, config: Config, parse: Parser, script: JobScript)
    returns (r: JobResult)
    requires Decided(script)
    ensures r == JobOutcome(sample, config, parse, script)
  {
    var exit, _, _ := RetryWithTimeout(LabelPolicy, LabelAttempts(script.calls, parse));
    RunBounded(LabelPolicy, LabelAttempts(script.calls, parse));
    if exit.Rethrown? {
      return LabelingFailed(exit.failure);
    }
    var reply := exit.value;
    var updateExit, _, _ := RetryWithTimeout(UpdatePolicy, script.updates);
    RunBounded(UpdatePolicy, script.updates);
    if updateExit.Rethrown? {
      return UpdateFailed(reply, updateExit.failure);
    }
    r := Labeled(reply, UpdateActions(sample, reply, config));
  }

  /** A first call answered with an acceptable completion, written back on
      the first attempt: the job labels the sample with that reply. */
  lemma LabeledOnFirstAnswer(sample: Sample, config: Config, parse: Parser, script: JobScript, reply: Reply)
    requires Decided(script)
    requires script.calls[0].Answered? && CheckCompletion(script.calls[0].completion, parse) == Result.Ok(reply)
    requires script.updates[0].Ok?
    ensures JobOutcome(sample, config, parse, script) == Labeled(reply, UpdateActions(sample, reply, config))
  {
    ReturnsFirstSuccess(LabelPolicy, LabelAttempts(script.calls, parse), 0);
    ReturnsFirstSuccess(UpdatePolicy, script.updates, 0);
  }

  /** Three failed model calls in a row fail the job with the third failure,
      and nothing is written back. */
  lemma FailsAfterThreeCalls(sample: Sample, config: Config, parse: Parser, script: JobScript)
    requires Decided(script)
    requires forall j :: 0 <= j < 3 ==> !LabelAttempt(script.calls[j], parse).Ok?
    ensures JobOutcome(sample, config, parse, script)
         == LabelingFailed(FailureOf(LabelPolicy, LabelAttempt(script.calls[2], parse)))
  {
    RethrowsLastFailure(LabelPolicy, LabelAttempts(script.calls, parse));
  }

  /** A label reaches the counters exactly when a reply was accepted within
      three model calls and written back within three attempts. */
  lemma LabeledIffBothBlocksReturn(sample: Sample, config: Config, parse: Parser, script: JobScript)
    requires Decided(script)
    ensures JobOutcome(sample, config, parse, script).Labeled? <==>
              (exists i :: 0 <= i < 3 && LabelAttempt(script.calls[i], parse).Ok?)
              && (exists j :: 0 <= j < 3 && script.updates[j].Ok?)
  {
    var attempts := LabelAttempts(script.calls, parse);
    FirstSuccessDecides(LabelPolicy, attempts);
    FirstSuccessDecides(UpdatePolicy, script.updates);
  }

  /** With three attempts per run, the run returns exactly when one of the
      first three attempts succeeds. */
  lemma FirstSuccessDecides<T, E>(p: Policy, attempts: seq<Outcome<T, E>>)
    requires p.maxRetries == 3 && |attempts| >= 3
    ensures Run(p, attempts).exit.Returned? <==> exists i :: 0 <= i < 3 && attempts[i].Ok?
  {
    if attempts[0].Ok? {
      ReturnsFirstSuccess(p, attempts, 0);
    } else if attempts[1].Ok? {
      ReturnsFirstSuccess(p, attempts, 1);
    } else if attempts[2].Ok? {
      ReturnsFirstSuccess(p, attempts, 2);
    } else {
      RethrowsLastFailure(p, attempts);
    }
  }

  /** With three attempts per run, a value the run returns is the value of
      one of the first three attempts. */
  lemma ReturnedByAnAttempt<T, E>(p: Policy, attempts: seq<Outcome<T, E>>)
    requires p.maxRetries == 3 && |attempts| >= 3
    requires Run(p, attempts).exit.Returned?
    ensures exists i :: 0 <= i < 3 && attempts[i] == Outcome.Ok(Run(p, attempts).exit.value)
  {
    FirstSuccessDecides(p, attempts);
    if attempts[0].Ok? {
      ReturnsFirstSuccess(p, attempts, 0);
    } else if attempts[1].Ok? {
      ReturnsFirstSuccess(p, attempts, 1);
    } else {
      ReturnsFirstSuccess(p, attempts, 2);
    }
  }

  /** What a job contributes to the counters. */
  function EndOf(r: JobResult): (e: JobEnd)
    ensures e.LabelApplied? <==> r.Labeled?
    ensures r.Labeled? ==> e == LabelApplied(r.reply.labelName)
  {
    if r.Labeled? then LabelApplied(r.reply.labelName) else JobFailed
  }

  // ---------------------------------------------------------------------------
  // The run

  /** The samples handed to the pool: sorted by id, the first `total` kept. */
  function Batch(samples: seq<Sample>, limit: Option<int>): (b: seq<Sample>)
    ensures |b| == Total(limit, |samples|)
    ensures SortedBy(b, IdOf)
    ensures b == SortBy(samples, IdOf)[..|b|]
  {
    var sorted := SortBy(samples, IdOf);
    sorted[..Total(limit, |samples|)]
  }

  /** Without a negative limit the batch is the source's
      `samplesToProcess.slice(0, total)`; with a negative limit the batch is
      empty, where the source's slice counts back from the end. */
  lemma BatchIsSourceSlice(samples: seq<Sample>, limit: Option<int>)
    ensures limit.None? || limit.value >= 0 ==>
              Batch(samples, limit) == SliceTo(SortBy(samples, IdOf), TotalAsWritten(limit, |samples|))
    ensures limit.Some? && limit.value < 0 ==>
              Batch(samples, limit) == [] &&
              |SliceTo(SortBy(samples, IdOf), TotalAsWritten(limit, |samples|))|
                == if |samples| + limit.value > 0 then |samples| + limit.value else 0
  {
    if limit.None? || limit.value >= 0 {
      TotalMatchesSource(SortBy(samples, IdOf), limit);
    }
  }

  /** The samples left out by the limit. */
  function Dropped(samples: seq<Sample>, limit: Option<int>): seq<Sample> {
    SortBy(samples, IdOf)[Total(limit, |samples|)..]
  }

  /** The batch and the dropped samples together are the samples listed. */
  lemma BatchAndDropped(samples: seq<Sample>, limit: Option<int>)
    ensures multiset(Batch(samples, limit)) + multiset(Dropped(samples, limit)) == multiset(samples)
  {
    var sorted := SortBy(samples, IdOf);
    var n := Total(limit, |samples|);
    assert sorted == sorted[..n] + sorted[n..];
  }

  /** No dropped sample has a smaller id than a labeled one. */
  lemma BatchHasSmallestIds(samples: seq<Sample>, limit: Option<int>, i: nat, j: nat)
    requires i < |Batch(samples, limit)| && j < |Dropped(samples, limit)|
    ensures Batch(samples, limit)[i].id <= Dropped(samples, limit)[j].id
  {
    var sorted := SortBy(samples, IdOf);
    var n := Total(limit, |samples|);
    assert Batch(samples, limit)[i] == sorted[i];
    assert Dropped(samples, limit)[j] == sorted[n + j];
    assert IdOf(sorted[i]) <= IdOf(sorted[n + j]);
  }

  /** How each job of the batch ends, in order; job i is answered by
      `scripts[i]`. */
  function JobEnds(batch: seq<Sample>, config: Config, parse: Parser, scripts: seq<JobScript>)
    : (ends: seq<JobEnd>)
    requires |scripts| >= |batch|
    requires forall i :: 0 <= i < |scripts| ==> Decided(scripts[i])
    ensures |ends| == |batch|
    ensures forall i :: 0 <= i < |batch| ==> ends[i] == EndOf(JobOutcome(batch[i], config, parse, scripts[i]))
  {
    if batch == [] then []
    else JobEnds(batch[..|batch| - 1], config, parse, scripts)
         + [EndOf(JobOutcome(batch[|batch| - 1], config, parse, scripts[|batch| - 1]))]
  }

  /** The number of jobs that threw. */
  function FailedCount(ends: seq<JobEnd>): nat {
    if ends == [] then 0
    else FailedCount(ends[..|ends| - 1]) + (if ends[|ends| - 1].JobFailed? then 1 else 0)
  }

  /** The number of jobs that applied label `k`. */
  function LabelTimes(ends: seq<JobEnd>, k: string): nat {
    if ends == [] then 0
    else LabelTimes(ends[..|ends| - 1], k) + (if ends[|ends| - 1] == LabelApplied(k) then 1 else 0)
  }

  /** A label is counted at all exactly when some job applied it. */
  lemma {:induction false} LabelTimesPositive(ends: seq<JobEnd>, k: string)
    ensures LabelTimes(ends, k) > 0 <==> LabelApplied(k) in ends
  {
    if ends != [] {
      var init := ends[..|ends| - 1];
      LabelTimesPositive(init, k);
      assert ends == init + [ends[|ends| - 1]];
    }
  }

  /** The job's end as the counters see it: one more count for its label, or
      one more error. */
  lemma CountersFollowEnds(lc: LabelCount, ends: seq<JobEnd>, e: JobEnd)
    requires WellFormed(lc)
    requires forall k :: CountOf(lc, k) == LabelTimes(ends, k)
    ensures var ends' := ends + [e];
            var lc' := if e.LabelApplied? then Bump(lc, e.labelName) else lc;
            && (forall k :: CountOf(lc', k) == LabelTimes(ends', k))
            && FailedCount(ends') == FailedCount(ends) + (if e.JobFailed? then 1 else 0)
  {
    var ends' := ends + [e];
    assert ends'[..|ends'| - 1] == ends;
  }

  /** When the counts follow the job ends, a label has a key exactly when
      some job applied it. */
  lemma CountedIffApplied(lc: LabelCount, ends: seq<JobEnd>)
    requires WellFormed(lc)
    requires forall k :: CountOf(lc, k) == LabelTimes(ends, k)
    ensures forall k :: k in lc.order <==> LabelApplied(k) in ends
  {
    forall k ensures k in lc.order <==> LabelApplied(k) in ends {
      LabelTimesPositive(ends, k);
    }
  }

  /** What a finished run shows. */
  datatype RunSummary = RunSummary(processed: nat, error: nat, labelCount: LabelCount, summary: string)

  /** The labeling run: the jobs of the batch one after the other, each
      updating the shared counters once. Job i is answered by `scripts[i]`,
      so two jobs for equal samples may be answered differently. */
  method LabelAll(samples: seq<Sample>, limit: Option<int>, config: Config, parse: Parser, scripts: seq<JobScript>)
    returns (run: RunSummary)
    requires |scripts| >= Total(limit, |samples|)
    requires forall i :: 0 <= i < |scripts| ==> Decided(scripts[i])
    ensures var batch := Batch(samples, limit);
            var ends := JobEnds(batch, config, parse, scripts);
            && run.processed == Total(limit, |samples|)
            && run.error == FailedCount(ends)
            && (forall k :: CountOf(run.labelCount, k) == LabelTimes(ends, k))
            && (forall k :: k in run.labelCount.order <==> LabelApplied(k) in ends)
            && WellFormed(run.labelCount)
            && run.error + Tallied(run.labelCount) == run.processed
            && run.summary == SummaryText(run.labelCount, run.error)
  {
    var batch := Batch(samples, limit);
    var ends := JobEnds(batch, config, parse, scripts);
    var counters := new Counters(|batch|);
    for i := 0 to |batch|
      invariant counters.Valid()
      invariant counters.processed == i
      invariant counters.error == FailedCount(ends[..i])
      invariant forall k :: CountOf(counters.labelCount, k) == LabelTimes(ends[..i], k)
    {
      var r := LabelSample(batch[i], config, parse, scripts[i]);
      var e := EndOf(r);
      assert e == ends[i];
      CountersFollowEnds(counters.labelCount, ends[..i], e);
      PrefixGrows(ends, i);
      counters.Finish(e);
    }
    assert ends[..|batch|] == ends;
    CountedIffApplied(counters.labelCount, ends);
    run := RunSummary(counters.processed, counters.error, counters.labelCount, SummaryText(counters.labelCount, counters.error));
  }
}
