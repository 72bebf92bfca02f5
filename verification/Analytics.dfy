/** The read model of a run: job records of the journal joined with the usage records of two ledgers. */
module Analytics {
  import opened Options
  import opened JobRecord
  import opened Usage

  // ----- Inputs -----

  datatype AgentMeta = AgentMeta(id: string, kind: string, taskID: string)

  /** liveSince is when the process that owns the journal started; 0 means nothing is alive. */
  datatype Meta = Meta(liveSince: int, agents: seq<AgentMeta>)

  datatype Input = Input(
    usage: seq<UsageRecord>,
    assistantUsage: seq<UsageRecord>,
    jobs: seq<Record>,
    meta: Meta)

  // ----- Facts -----

  datatype EntryKind = JobEntry | UsageOnly | FailedStart

  /** One unit of spend or time. unjoined marks usage naming a job the journal does not have. */
  datatype Entry = Entry(
    kind: EntryKind,
    id: string,
    agentID: string,
    stageID: string,
    model: string,
    status: string,
    at: int,
    endedAt: int,
    offsetMS: Option<int>,
    durationMS: Option<int>,
    running: bool,
    usage: EntryUsage,
    unjoined: bool)

  datatype AgentRef = AgentRef(kind: string, outside: bool)

  datatype Facts = Facts(entries: seq<Entry>, agents: map<string, AgentRef>, startFailed: nat)

  const ASSISTANT := "assistant"
  const UNKNOWN_KIND := "unknown"
  const RUN_OVERHEAD_AGENT := "run_overhead"
  const UNATTRIBUTED := "unattributed"
  const RUNNING := "running"
  const INTERRUPTED := "interrupted"

  // ----- Names -----

  function First(a: string, b: string): string
  {
    if a != "" then a else b
  }

  function ModelKey(channel: string, model: string): string
  {
    if model == "" then "" else if channel == "" then model else channel + "/" + model
  }

  function Prefix(id: string): string
  {
    if id == "" || id[0] == ':' then "" else [id[0]] + Prefix(id[1..])
  }

  function KindFromID(id: string): string
  {
    if id == RUN_OVERHEAD_AGENT then "run_overhead"
    else if Prefix(id) == "stage" then "stage"
    else if Prefix(id) == "helper" then "helper"
    else if Prefix(id) == "run" then "run_agent"
    else if Prefix(id) == "verify" then "verify"
    else if Prefix(id) == "side" then ASSISTANT
    else UNKNOWN_KIND
  }

  /** The last participant with the id, as a later entry replaces an earlier one. */
  function MetaKind(agents: seq<AgentMeta>, id: string): string
  {
    if agents == [] then ""
    else if agents[|agents| - 1].id == id then agents[|agents| - 1].kind
    else MetaKind(agents[..|agents| - 1], id)
  }

  function TaskAgent(agents: seq<AgentMeta>, taskID: string): Option<string>
  {
    if agents == [] || taskID == "" then None
    else if agents[|agents| - 1].taskID == taskID then Some(agents[|agents| - 1].id)
    else TaskAgent(agents[..|agents| - 1], taskID)
  }

  function AssistantID(agents: seq<AgentMeta>): string
  {
    if agents == [] then "side" else if agents[0].kind == ASSISTANT then agents[0].id else AssistantID(agents[1..])
  }

  /** An agent and the kind it is registered with unless the metadata knows better. */
  datatype Attribution = Attribution(agentID: string, kind: string, stageID: string)

  function ByFields(meta: Meta, stageID: string, rootStageID: string, taskID: string): Attribution
  {
    var stage := First(rootStageID, stageID);
    match TaskAgent(meta.agents, taskID)
    case Some(id) => Attribution(id, KindFromID(id), stage)
    case None =>
      if taskID != "" then Attribution("helper:" + taskID, "helper", stage)
      else if stage != "" then Attribution("stage:" + stage, "stage", stage)
      else Attribution(UNATTRIBUTED, UNKNOWN_KIND, stage)
  }

  function OfJob(meta: Meta, l: Labels): Attribution
  {
    if l.agentID == "" then ByFields(meta, l.stageID, l.rootStageID, l.taskID)
    else Attribution(l.agentID, First(l.agentKind, KindFromID(l.agentID)), First(l.rootStageID, l.stageID))
  }

  function OfUsage(meta: Meta, rec: UsageRecord, assistant: bool): Attribution
  {
    if assistant then Attribution(AssistantID(meta.agents), ASSISTANT, "")
    else if rec.scope == RUN_OVERHEAD then Attribution(RUN_OVERHEAD_AGENT, "run_overhead", "")
    else ByFields(meta, rec.stageID, rec.rootStageID, rec.taskID)
  }

  /** An agent keeps the kind it was first seen with. */
  function Registered(meta: Meta, agents: map<string, AgentRef>, a: Attribution): map<string, AgentRef>
  {
    if a.agentID in agents then agents else
      var kind := First(MetaKind(meta.agents, a.agentID), a.kind);
      agents[a.agentID := AgentRef(kind, kind == ASSISTANT)]
  }

  // ----- Joining -----

  /** The records that name the job, in ledger order; no record names the empty ID. */
  function RecordsFor(recs: seq<UsageRecord>, id: string): seq<UsageRecord>
  {
    if recs == [] then []
    else
      var last := recs[|recs| - 1];
      var before := RecordsFor(recs[..|recs| - 1], id);
      if last.jobID == id && id != "" then before + [last] else before
  }

  function FinishOf(jobs: seq<Record>, id: string): Option<Record>
  {
    if jobs == [] then None
    else if jobs[|jobs| - 1].kind == Finished && jobs[|jobs| - 1].jobID == id then Some(jobs[|jobs| - 1])
    else FinishOf(jobs[..|jobs| - 1], id)
  }

  function UsageModel(recs: seq<UsageRecord>, hint: string): string
  {
    if recs == [] then hint
    else if ModelKey(recs[0].channel, recs[0].model) != "" then ModelKey(recs[0].channel, recs[0].model)
    else UsageModel(recs[1..], hint)
  }

  function EntryUsageOf(recs: seq<UsageRecord>): EntryUsage
  {
    if recs == [] then NoUsage() else Folded(recs)
  }

  function JobEntryOf(meta: Meta, rec: Record, end: Option<Record>, recs: seq<UsageRecord>): Entry
  {
    var a := OfJob(meta, rec.labels);
    var hint := ModelKey(rec.labels.channel, rec.labels.model);
    var base := Entry(JobEntry, rec.jobID, a.agentID, a.stageID, UsageModel(recs, hint), INTERRUPTED, rec.at.instant, 0,
                      if IsZero(rec.segment.runStartedAt) then None else Some(rec.segment.offsetMS),
                      None, false, EntryUsageOf(recs), false);
    if end.Some? then
      base.(status := end.value.outcome, endedAt := end.value.at.instant, durationMS := Some(end.value.durationMS))
    else if meta.liveSince != 0 && meta.liveSince <= rec.at.instant then base.(status := RUNNING, running := true)
    else base
  }

  function FailedEntryOf(meta: Meta, rec: Record, recs: seq<UsageRecord>): Entry
  {
    var a := OfJob(meta, rec.labels);
    var hint := ModelKey(rec.labels.channel, rec.labels.model);
    Entry(FailedStart, rec.jobID, a.agentID, a.stageID, UsageModel(recs, hint), "", rec.at.instant, 0,
          None, None, false, EntryUsageOf(recs), false)
  }

  function UsageEntryOf(meta: Meta, rec: UsageRecord, assistant: bool): Entry
  {
    var a := OfUsage(meta, rec, assistant);
    Entry(UsageOnly, "", a.agentID, a.stageID, ModelKey(rec.channel, rec.model), "", rec.time, 0,
          None, None, false, Folded([rec]), rec.jobID != "")
  }

  // ----- Building -----

  function All(input: Input): seq<UsageRecord>
  {
    input.usage + input.assistantUsage
  }

  predicate Begins(rec: Record)
  {
    rec.kind == Started || rec.kind == StartFailed
  }

  function WithJob(input: Input, f: Facts, rec: Record, recs: seq<UsageRecord>): Facts
  {
    if !Begins(rec) then f else
      var agents := Registered(input.meta, f.agents, OfJob(input.meta, rec.labels));
      if rec.kind == Started then
        Facts(f.entries + [JobEntryOf(input.meta, rec, FinishOf(input.jobs, rec.jobID), recs)], agents, f.startFailed)
      else
        Facts(f.entries + [FailedEntryOf(input.meta, rec, recs)], agents, f.startFailed + 1)
  }

  /** The facts after the first records of the journal. */
  function WithJobs(input: Input, jobs: seq<Record>): Facts
  {
    if jobs == [] then Facts([], map[], 0) else
      var rec := jobs[|jobs| - 1];
      WithJob(input, WithJobs(input, jobs[..|jobs| - 1]), rec, RecordsFor(All(input), rec.jobID))
  }

  /** The job IDs whose usage a journal record consumed. */
  function Claimed(all: seq<UsageRecord>, jobs: seq<Record>): set<string>
  {
    if jobs == [] then {} else
      var rec := jobs[|jobs| - 1];
      Claimed(all, jobs[..|jobs| - 1]) + if Begins(rec) && RecordsFor(all, rec.jobID) != [] then {rec.jobID} else {}
  }

  function WithUsage(meta: Meta, claimed: set<string>, f: Facts, recs: seq<UsageRecord>, assistant: bool): Facts
  {
    if recs == [] then f else
      var g := WithUsage(meta, claimed, f, recs[..|recs| - 1], assistant);
      var rec := recs[|recs| - 1];
      if rec.jobID != "" && rec.jobID in claimed then g
      else g.(entries := g.entries + [UsageEntryOf(meta, rec, assistant)],
              agents := Registered(meta, g.agents, OfUsage(meta, rec, assistant)))
  }

  function Joined(input: Input): Facts
  {
    var claimed := Claimed(All(input), input.jobs);
    WithUsage(input.meta, claimed,
              WithUsage(input.meta, claimed, WithJobs(input, input.jobs), input.usage, false),
              input.assistantUsage, true)
  }

  /** One more record of the journal. */
  lemma JobNext(input: Input, all: seq<UsageRecord>, i: nat)
    requires i < |input.jobs| && all == All(input)
    ensures var rec, before, after := input.jobs[i], input.jobs[..i], input.jobs[..i + 1];
      && WithJobs(input, after) == WithJob(input, WithJobs(input, before), rec, RecordsFor(all, rec.jobID))
      && Claimed(all, after) ==
           Claimed(all, before) + if Begins(rec) && RecordsFor(all, rec.jobID) != [] then {rec.jobID} else {}
  {
    assert input.jobs[..i + 1][..i] == input.jobs[..i];
  }

  class Builder {
    const input: Input
    var entries: seq<Entry>
    var agents: map<string, AgentRef>
    var startFailed: nat

    ghost function Contents(): Facts
      reads this
    {
      Facts(entries, agents, startFailed)
    }

    constructor (input: Input)
      ensures this.input == input && Contents() == Facts([], map[], 0)
    {
      this.input := input;
      entries, agents, startFailed := [], map[], 0;
    }

    method Register(a: Attribution)
      modifies this`agents
      ensures agents == Registered(input.meta, old(agents), a)
    {
      if a.agentID in agents {
        return;
      }
      var kind := First(MetaKind(input.meta.agents, a.agentID), a.kind);
      agents := agents[a.agentID := AgentRef(kind, kind == ASSISTANT)];
    }

    method AddJob(rec: Record, recs: seq<UsageRecord>)
      requires Begins(rec)
      modifies this
      ensures Contents() == WithJob(input, old(Contents()), rec, recs)
    {
      Register(OfJob(input.meta, rec.labels));
      if rec.kind == Started {
        entries := entries + [JobEntryOf(input.meta, rec, FinishOf(input.jobs, rec.jobID), recs)];
      } else {
        entries := entries + [FailedEntryOf(input.meta, rec, recs)];
        startFailed := startFailed + 1;
      }
    }

    /** Turns journal records into entries and returns the job IDs whose usage was consumed. */
    method CollectJobs(all: seq<UsageRecord>) returns (claimed: set<string>)
      requires Contents() == Facts([], map[], 0) && all == All(input)
      modifies this
      ensures Contents() == WithJobs(input, input.jobs) && claimed == Claimed(all, input.jobs)
    {
      claimed := {};
      for i := 0 to |input.jobs|
        invariant Contents() == WithJobs(input, input.jobs[..i]) && claimed == Claimed(all, input.jobs[..i])
      {
        var rec := input.jobs[i];
        JobNext(input, all, i);
        if rec.kind != Started && rec.kind != StartFailed {
          continue;
        }
        var recs := RecordsFor(all, rec.jobID);
        AddJob(rec, recs);
        if recs != [] {
          claimed := claimed + {rec.jobID};
        }
      }
      assert input.jobs[..|input.jobs|] == input.jobs;
    }

    /** Keeps usage no journal record consumed. */
    method CollectUsageOnly(recs: seq<UsageRecord>, claimed: set<string>, assistant: bool)
      modifies this
      ensures Contents() == WithUsage(input.meta, claimed, old(Contents()), recs, assistant)
    {
      for i := 0 to |recs|
        invariant Contents() == WithUsage(input.meta, claimed, old(Contents()), recs[..i], assistant)
      {
        var rec := recs[i];
        assert recs[..i + 1][..i] == recs[..i];
        if rec.jobID != "" && rec.jobID in claimed {
          continue;
        }
        Register(OfUsage(input.meta, rec, assistant));
        entries := entries + [UsageEntryOf(input.meta, rec, assistant)];
      }
      assert recs[..|recs|] == recs;
    }
  }

  /** The facts as they are returned. */
  function Built(input: Input): Facts
  {
    Joined(input).(entries := Placed(input.jobs, Joined(input).entries))
  }

  /** Every entry's agent is registered. */
  predicate Attributed(f: Facts)
  {
    forall i :: 0 <= i < |f.entries| ==> f.entries[i].agentID in f.agents
  }

  lemma {:induction false} JobsAttributed(input: Input, jobs: seq<Record>)
    ensures Attributed(WithJobs(input, jobs))
  {
    if jobs != [] {
      JobsAttributed(input, jobs[..|jobs| - 1]);
    }
  }

  lemma {:induction false} UsageAttributed(meta: Meta, claimed: set<string>, f: Facts, recs: seq<UsageRecord>, assistant: bool)
    requires Attributed(f)
    ensures Attributed(WithUsage(meta, claimed, f, recs, assistant))
  {
    if recs != [] {
      UsageAttributed(meta, claimed, f, recs[..|recs| - 1], assistant);
    }
  }

  /** No query over built facts ever looks up an agent that is not there. */
  lemma BuiltAttributed(input: Input)
    ensures Attributed(Built(input))
  {
    var claimed := Claimed(All(input), input.jobs);
    JobsAttributed(input, input.jobs);
    UsageAttributed(input.meta, claimed, WithJobs(input, input.jobs), input.usage, false);
    UsageAttributed(input.meta, claimed, WithUsage(input.meta, claimed, WithJobs(input, input.jobs), input.usage, false),
                    input.assistantUsage, true);
  }

  method BuildFacts(input: Input) returns (f: Facts)
    ensures f == Built(input) && Attributed(f)
  {
    var b := new Builder(input);
    var claimed := b.CollectJobs(All(input));
    b.CollectUsageOnly(input.usage, claimed, false);
    b.CollectUsageOnly(input.assistantUsage, claimed, true);
    var entries := DropOverlappingOffsets(input.jobs, b.entries);
    f := Facts(entries, b.agents, b.startFailed);
    BuiltAttributed(input);
  }

  // ----- Conservation of usage -----

  /** Which records each entry folds, entry by entry. */
  function JobSources(all: seq<UsageRecord>, jobs: seq<Record>): seq<seq<UsageRecord>>
  {
    if jobs == [] then [] else
      var before := JobSources(all, jobs[..|jobs| - 1]);
      if Begins(jobs[|jobs| - 1]) then before + [RecordsFor(all, jobs[|jobs| - 1].jobID)] else before
  }

  function UsageSources(claimed: set<string>, recs: seq<UsageRecord>): seq<seq<UsageRecord>>
  {
    if recs == [] then [] else
      var rec := recs[|recs| - 1];
      var before := UsageSources(claimed, recs[..|recs| - 1]);
      if rec.jobID != "" && rec.jobID in claimed then before else before + [[rec]]
  }

  function Sources(input: Input): seq<seq<UsageRecord>>
  {
    var claimed := Claimed(All(input), input.jobs);
    JobSources(All(input), input.jobs) + UsageSources(claimed, input.usage) + UsageSources(claimed, input.assistantUsage)
  }

  function Flatten(groups: seq<seq<UsageRecord>>): seq<UsageRecord>
  {
    if groups == [] then [] else Flatten(groups[..|groups| - 1]) + groups[|groups| - 1]
  }

  ghost predicate FoldsSources(entries: seq<Entry>, sources: seq<seq<UsageRecord>>)
  {
    |entries| == |sources| && forall i :: 0 <= i < |entries| ==> entries[i].usage == EntryUsageOf(sources[i])
  }

  lemma {:induction false} JobsFoldSources(input: Input, jobs: seq<Record>)
    ensures FoldsSources(WithJobs(input, jobs).entries, JobSources(All(input), jobs))
  {
    if jobs != [] {
      var front, rec := jobs[..|jobs| - 1], jobs[|jobs| - 1];
      JobsFoldSources(input, front);
      JobFoldsSources(input, WithJobs(input, front), JobSources(All(input), front), rec, RecordsFor(All(input), rec.jobID));
    }
  }

  lemma JobFoldsSources(input: Input, f: Facts, sources: seq<seq<UsageRecord>>, rec: Record, recs: seq<UsageRecord>)
    requires FoldsSources(f.entries, sources)
    ensures FoldsSources(WithJob(input, f, rec, recs).entries, if Begins(rec) then sources + [recs] else sources)
  {
  }

  lemma {:induction false} UsageFoldsSources(meta: Meta, claimed: set<string>, f: Facts, recs: seq<UsageRecord>, assistant: bool, before: seq<seq<UsageRecord>>)
    requires FoldsSources(f.entries, before)
    ensures FoldsSources(WithUsage(meta, claimed, f, recs, assistant).entries, before + UsageSources(claimed, recs))
  {
    if recs == [] {
      assert before + [] == before;
    } else {
      UsageFoldsSources(meta, claimed, f, recs[..|recs| - 1], assistant, before);
      var front := UsageSources(claimed, recs[..|recs| - 1]);
      assert before + (front + [[recs[|recs| - 1]]]) == (before + front) + [[recs[|recs| - 1]]];
    }
  }

  /** Entry i folds exactly the records of source i. */
  lemma EntriesFoldSources(input: Input)
    ensures FoldsSources(Joined(input).entries, Sources(input))
  {
    var claimed := Claimed(All(input), input.jobs);
    var f := WithJobs(input, input.jobs);
    JobsFoldSources(input, input.jobs);
    UsageFoldsSources(input.meta, claimed, f, input.usage, false, JobSources(All(input), input.jobs));
    UsageFoldsSources(input.meta, claimed, WithUsage(input.meta, claimed, f, input.usage, false), input.assistantUsage, true,
                      JobSources(All(input), input.jobs) + UsageSources(claimed, input.usage));
  }

  /** How many journal records begin the job. */
  function Beginnings(jobs: seq<Record>, id: string): nat
  {
    if jobs == [] then 0 else
      Beginnings(jobs[..|jobs| - 1], id) + if Begins(jobs[|jobs| - 1]) && jobs[|jobs| - 1].jobID == id then 1 else 0
  }

  lemma {:induction false} RecordsForCount(recs: seq<UsageRecord>, id: string, r: UsageRecord)
    ensures multiset(RecordsFor(recs, id))[r] == if r.jobID == id && id != "" then multiset(recs)[r] else 0
  {
    if recs != [] {
      var front, last := recs[..|recs| - 1], recs[|recs| - 1];
      RecordsForCount(front, id, r);
      assert recs == front + [last];
    }
  }

  lemma {:induction false} FlattenAppend(a: seq<seq<UsageRecord>>, b: seq<seq<UsageRecord>>)
    ensures Flatten(a + b) == Flatten(a) + Flatten(b)
  {
    if b == [] {
      assert a + b == a;
    } else {
      assert (a + b)[..|a + b| - 1] == a + b[..|b| - 1];
      FlattenAppend(a, b[..|b| - 1]);
    }
  }

  function Times(n: nat, m: nat): nat
  {
    if n == 0 then 0 else Times(n - 1, m) + m
  }

  lemma FlattenPush(groups: seq<seq<UsageRecord>>, group: seq<UsageRecord>, r: UsageRecord)
    ensures multiset(Flatten(groups + [group]))[r] == multiset(Flatten(groups))[r] + multiset(group)[r]
  {
    assert (groups + [group])[..|groups|] == groups;
  }

  lemma PushCount(recs: seq<UsageRecord>, r: UsageRecord)
    requires recs != []
    ensures multiset(recs)[r] == multiset(recs[..|recs| - 1])[r] + if recs[|recs| - 1] == r then 1 else 0
  {
    assert recs == recs[..|recs| - 1] + [recs[|recs| - 1]];
  }

  function JobCount(all: seq<UsageRecord>, jobs: seq<Record>, r: UsageRecord): nat
  {
    if r.jobID == "" then 0 else Times(Beginnings(jobs, r.jobID), multiset(all)[r])
  }

  lemma JobCountPush(all: seq<UsageRecord>, front: seq<Record>, last: Record, r: UsageRecord)
    ensures JobCount(all, front + [last], r) == JobCount(all, front, r) +
      if Begins(last) && last.jobID == r.jobID && r.jobID != "" then multiset(all)[r] else 0
  {
    assert (front + [last])[..|front|] == front;
  }

  lemma JobSourcesPush(all: seq<UsageRecord>, front: seq<Record>, last: Record, r: UsageRecord)
    ensures multiset(Flatten(JobSources(all, front + [last])))[r] == multiset(Flatten(JobSources(all, front)))[r] +
      if Begins(last) && last.jobID == r.jobID && r.jobID != "" then multiset(all)[r] else 0
  {
    assert (front + [last])[..|front|] == front;
    if Begins(last) {
      FlattenPush(JobSources(all, front), RecordsFor(all, last.jobID), r);
      RecordsForCount(all, last.jobID, r);
    }
  }

  lemma {:induction false} JobSourcesCount(all: seq<UsageRecord>, jobs: seq<Record>, r: UsageRecord)
    ensures multiset(Flatten(JobSources(all, jobs)))[r] == JobCount(all, jobs, r)
  {
    if jobs != [] {
      var front, last := jobs[..|jobs| - 1], jobs[|jobs| - 1];
      assert jobs == front + [last];
      JobSourcesCount(all, front, r);
      JobCountPush(all, front, last, r);
      JobSourcesPush(all, front, last, r);
    }
  }

  lemma {:induction false} UsageSourcesCount(claimed: set<string>, recs: seq<UsageRecord>, r: UsageRecord)
    ensures multiset(Flatten(UsageSources(claimed, recs)))[r] ==
      if r.jobID != "" && r.jobID in claimed then 0 else multiset(recs)[r]
  {
    if recs != [] {
      UsageSourcesCount(claimed, recs[..|recs| - 1], r);
      PushCount(recs, r);
      FlattenPush(UsageSources(claimed, recs[..|recs| - 1]), [recs[|recs| - 1]], r);
    }
  }

  lemma {:induction false} ClaimedMeans(all: seq<UsageRecord>, jobs: seq<Record>, id: string)
    ensures id in Claimed(all, jobs) <==> Beginnings(jobs, id) > 0 && RecordsFor(all, id) != []
  {
    if jobs != [] { ClaimedMeans(all, jobs[..|jobs| - 1], id); }
  }

  lemma {:induction false} RecordsForNonempty(recs: seq<UsageRecord>, id: string)
    ensures RecordsFor(recs, id) != [] <==> exists r :: r in multiset(recs) && r.jobID == id && id != ""
  {
    if RecordsFor(recs, id) != [] {
      var r := RecordsFor(recs, id)[0];
      assert r in multiset(RecordsFor(recs, id));
      RecordsForCount(recs, id, r);
    } else {
      forall r | r in multiset(recs) && r.jobID == id && id != ""
        ensures false
      {
        RecordsForCount(recs, id, r);
      }
    }
  }

  lemma SourcesCount(input: Input, r: UsageRecord)
    ensures var all, claimed := All(input), Claimed(All(input), input.jobs);
      multiset(Flatten(Sources(input)))[r] ==
        JobCount(all, input.jobs, r) + (if r.jobID != "" && r.jobID in claimed then 0 else multiset(all)[r])
  {
    var all, claimed := All(input), Claimed(All(input), input.jobs);
    FlattenAppend(JobSources(all, input.jobs) + UsageSources(claimed, input.usage), UsageSources(claimed, input.assistantUsage));
    FlattenAppend(JobSources(all, input.jobs), UsageSources(claimed, input.usage));
    JobSourcesCount(all, input.jobs, r);
    UsageSourcesCount(claimed, input.usage, r);
    UsageSourcesCount(claimed, input.assistantUsage, r);
  }

  lemma RecordCount(input: Input, r: UsageRecord)
    requires r in multiset(All(input))
    ensures var n := if r.jobID == "" then 0 else Beginnings(input.jobs, r.jobID);
      multiset(Flatten(Sources(input)))[r] == Times(if n == 0 then 1 else n, multiset(All(input))[r])
  {
    SourcesCount(input, r);
    ClaimedMeans(All(input), input.jobs, r.jobID);
    RecordsForNonempty(All(input), r.jobID);
    assert Times(1, multiset(All(input))[r]) == multiset(All(input))[r];
  }

  lemma {:induction false} SourcesHoldOnlyRecords(input: Input, r: UsageRecord)
    requires r !in multiset(All(input))
    ensures multiset(Flatten(Sources(input)))[r] == 0
  {
    SourcesCount(input, r);
    TimesZero(if r.jobID == "" then 0 else Beginnings(input.jobs, r.jobID));
  }

  lemma {:induction false} TimesZero(n: nat)
    ensures Times(n, 0) == 0
  {
    if n > 0 { TimesZero(n - 1); }
  }

  /** No job that has usage begins twice in the journal. */
  ghost predicate BeginOnce(input: Input)
  {
    forall r :: r in multiset(All(input)) && r.jobID != "" ==> Beginnings(input.jobs, r.jobID) <= 1
  }

  /** Main result: the entries fold every record of both ledgers exactly once, exactly when no job with usage begins
      twice in the journal. */
  lemma FoldsEveryRecordOnce(input: Input)
    ensures multiset(Flatten(Sources(input))) == multiset(All(input)) <==> BeginOnce(input)
  {
    if BeginOnce(input) {
      forall r: UsageRecord
        ensures multiset(Flatten(Sources(input)))[r] == multiset(All(input))[r]
      {
        if r in multiset(All(input)) {
          RecordCount(input, r);
          assert Times(1, multiset(All(input))[r]) == multiset(All(input))[r];
        } else {
          SourcesHoldOnlyRecords(input, r);
        }
      }
    } else {
      var r :| r in multiset(All(input)) && r.jobID != "" && Beginnings(input.jobs, r.jobID) > 1;
      RecordCount(input, r);
      TimesGrows(Beginnings(input.jobs, r.jobID), multiset(All(input))[r]);
    }
  }

  lemma {:induction false} TimesGrows(n: nat, m: nat)
    requires n > 1 && m > 0
    ensures Times(n, m) > m
  {
    if n > 2 { TimesGrows(n - 1, m); } else { assert Times(1, m) == m; }
  }

  // ----- Placing jobs on the timeline -----

  /** Where the process segments of the run begin on its active timeline. */
  function SegmentBases(jobs: seq<Record>): set<int>
  {
    set i | 0 <= i < |jobs| && jobs[i].kind == Started && !IsZero(jobs[i].segment.runStartedAt) :: jobs[i].segment.baseMS
  }

  function BaseOf(jobs: seq<Record>, id: string): Option<int>
  {
    if jobs == [] then None else
      var rec := jobs[|jobs| - 1];
      if rec.kind == Started && !IsZero(rec.segment.runStartedAt) && rec.jobID == id then Some(rec.segment.baseMS)
      else BaseOf(jobs[..|jobs| - 1], id)
  }

  /** The job would end after a later segment began. */
  predicate Overlaps(jobs: seq<Record>, e: Entry)
  {
    && e.kind == JobEntry && BaseOf(jobs, e.id).Some? && e.offsetMS.Some? && e.durationMS.Some?
    && exists next :: next in SegmentBases(jobs) && BaseOf(jobs, e.id).value < next < e.offsetMS.value + e.durationMS.value
  }

  function PlacedEntry(jobs: seq<Record>, e: Entry): Entry
  {
    if Overlaps(jobs, e) then e.(offsetMS := None) else e
  }

  function Placed(jobs: seq<Record>, entries: seq<Entry>): seq<Entry>
  {
    seq(|entries|, i requires 0 <= i < |entries| => PlacedEntry(jobs, entries[i]))
  }

  /** The smallest segment start after base. */
  method NextBase(bases: set<int>, base: int) returns (next: Option<int>)
    ensures next.Some? ==> next.value in bases && base < next.value && forall b :: b in bases && base < b ==> next.value <= b
    ensures next.None? ==> forall b :: b in bases ==> b <= base
  {
    next := None;
    var rest := bases;
    while exists b: int :: b in rest
      invariant rest <= bases
      invariant next.Some? ==> next.value in bases && base < next.value
      invariant forall b :: b in bases && b !in rest && base < b ==> next.Some? && next.value <= b
      decreases rest
    {
      var b: int :| b in rest;
      if base < b && (next.None? || b < next.value) {
        next := Some(b);
      }
      rest := rest - {b};
    }
  }

  /** Withdraws the timeline position of a job that ends after the next process segment began. */
  method DropOverlappingOffsets(jobs: seq<Record>, entries: seq<Entry>) returns (placed: seq<Entry>)
    ensures placed == Placed(jobs, entries)
  {
    var bases := SegmentBases(jobs);
    placed := [];
    for i := 0 to |entries|
      invariant placed == Placed(jobs, entries)[..i]
    {
      var e := entries[i];
      var base := BaseOf(jobs, e.id);
      if e.kind == JobEntry && base.Some? && e.offsetMS.Some? && e.durationMS.Some? {
        var next := NextBase(bases, base.value);
        if next.Some? && e.offsetMS.value + e.durationMS.value > next.value {
          e := e.(offsetMS := None);
        }
      }
      placed := placed + [e];
    }
  }
}
