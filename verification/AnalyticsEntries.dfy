/** What the facts of a run say, told by the records they come from: each entry's source, its agent and stage, its times and
    its model, and the kinds of the agents. */
module AnalyticsEntries {
  import opened Options
  import opened JobRecord
  import opened Usage
  import opened Analytics

  // ----- Sources, in order -----

  datatype Source = OfRecord(rec: Record) | OfLedger(use: UsageRecord, assistant: bool)

  function Begun(jobs: seq<Record>): seq<Source>
  {
    if jobs == [] then [] else
      var front := Begun(jobs[..|jobs| - 1]);
      if jobs[|jobs| - 1].kind in {Started, StartFailed} then front + [OfRecord(jobs[|jobs| - 1])] else front
  }

  /** A beginning of the job is in the journal. */
  predicate Known(jobs: seq<Record>, id: string)
  {
    exists k :: 0 <= k < |jobs| && jobs[k].kind in {Started, StartFailed} && jobs[k].jobID == id
  }

  function LeftOver(jobs: seq<Record>, recs: seq<UsageRecord>, assistant: bool): seq<Source>
  {
    if recs == [] then [] else
      var front, last := LeftOver(jobs, recs[..|recs| - 1], assistant), recs[|recs| - 1];
      if last.jobID != "" && Known(jobs, last.jobID) then front else front + [OfLedger(last, assistant)]
  }

  function SourcesOf(input: Input): seq<Source>
  {
    Begun(input.jobs) + LeftOver(input.jobs, input.usage, false) + LeftOver(input.jobs, input.assistantUsage, true)
  }

  // ----- Who a source belongs to -----

  predicate LastWithTask(agents: seq<AgentMeta>, taskID: string, k: nat)
  {
    k < |agents| && agents[k].taskID == taskID && forall x :: k < x < |agents| ==> agents[x].taskID != taskID
  }

  /** The participant that runs the task is the last one listed with it. */
  ghost predicate Runs(agents: seq<AgentMeta>, taskID: string, id: string)
  {
    taskID != "" && exists k: nat :: LastWithTask(agents, taskID, k) && agents[k].id == id
  }

  predicate NobodyRuns(agents: seq<AgentMeta>, taskID: string)
  {
    taskID == "" || forall k :: 0 <= k < |agents| ==> agents[k].taskID != taskID
  }

  /** The root stage, or the stage if there is none. */
  predicate InStage(stage: string, root: string, own: string)
  {
    (root != "" ==> stage == root) && (root == "" ==> stage == own)
  }

  ghost predicate FieldsName(meta: Meta, a: Attribution, own: string, root: string, taskID: string)
  {
    && InStage(a.stageID, root, own)
    && (Runs(meta.agents, taskID, a.agentID)
        || (NobodyRuns(meta.agents, taskID)
            && (taskID != "" ==> a.agentID == "helper:" + taskID)
            && (taskID == "" && a.stageID != "" ==> a.agentID == "stage:" + a.stageID)
            && (taskID == "" && a.stageID == "" ==> a.agentID == "unattributed")))
  }

  predicate FirstAssistant(agents: seq<AgentMeta>, k: nat)
  {
    k < |agents| && agents[k].kind == "assistant" && forall x :: 0 <= x < k ==> agents[x].kind != "assistant"
  }

  /** The Assistant is the first participant of its kind. */
  ghost predicate IsAssistant(agents: seq<AgentMeta>, id: string)
  {
    || (exists k: nat :: FirstAssistant(agents, k) && agents[k].id == id)
    || (id == "side" && forall k :: 0 <= k < |agents| ==> agents[k].kind != "assistant")
  }

  ghost predicate BelongsTo(meta: Meta, s: Source, a: Attribution)
  {
    match s
    case OfRecord(rec) =>
      if rec.labels.agentID != "" then
        a.agentID == rec.labels.agentID && InStage(a.stageID, rec.labels.rootStageID, rec.labels.stageID)
      else FieldsName(meta, a, rec.labels.stageID, rec.labels.rootStageID, rec.labels.taskID)
    case OfLedger(use, assistant) =>
      if assistant then IsAssistant(meta.agents, a.agentID) && a.stageID == ""
      else if use.scope == "run_overhead" then a.agentID == "run_overhead" && a.stageID == ""
      else FieldsName(meta, a, use.stageID, use.rootStageID, use.taskID)
  }

  // ----- What an entry says of its source -----

  predicate LastFinish(jobs: seq<Record>, id: string, k: nat)
  {
    k < |jobs| && jobs[k].kind == Finished && jobs[k].jobID == id
    && forall x :: k < x < |jobs| ==> !(jobs[x].kind == Finished && jobs[x].jobID == id)
  }

  predicate NeverFinished(jobs: seq<Record>, id: string)
  {
    forall x :: 0 <= x < |jobs| ==> !(jobs[x].kind == Finished && jobs[x].jobID == id)
  }

  /** Times and status of a started job: those of its last end, or running in the present process, or interrupted. */
  ghost predicate Timed(input: Input, rec: Record, e: Entry)
  {
    && (forall k: nat :: LastFinish(input.jobs, rec.jobID, k) ==>
          var end := input.jobs[k];
          e.status == end.outcome && e.endedAt == end.at.instant && e.durationMS == Some(end.durationMS) && !e.running)
    && (NeverFinished(input.jobs, rec.jobID) ==>
          var alive := input.meta.liveSince != 0 && rec.at.instant >= input.meta.liveSince;
          e.running == alive && e.endedAt == 0 && e.durationMS == None && e.status == if alive then "running" else "interrupted")
    && (e.offsetMS == None || e.offsetMS == Some(rec.segment.offsetMS))
    && (rec.segment.runStartedAt.instant == 0 ==> e.offsetMS == None)
  }

  predicate Names(key: string, channel: string, model: string)
  {
    (model == "" ==> key == "") && (model != "" && channel == "" ==> key == model)
    && (model != "" && channel != "" ==> key == channel + "/" + model)
  }

  predicate ForJob(r: UsageRecord, id: string)
  {
    id != "" && r.jobID == id
  }

  /** The model is the first one named in the job's usage, the run's ledger before the Assistant's, or the configured one. */
  ghost predicate Modelled(recs: seq<UsageRecord>, rec: Record, model: string)
  {
    || (exists k :: 0 <= k < |recs| && ForJob(recs[k], rec.jobID) && recs[k].model != "" && Names(model, recs[k].channel, recs[k].model)
          && forall x :: 0 <= x < k && ForJob(recs[x], rec.jobID) ==> recs[x].model == "")
    || ((forall k :: 0 <= k < |recs| && ForJob(recs[k], rec.jobID) ==> recs[k].model == "")
          && Names(model, rec.labels.channel, rec.labels.model))
  }

  ghost predicate Describes(input: Input, s: Source, e: Entry)
  {
    && (exists kind :: BelongsTo(input.meta, s, Attribution(e.agentID, kind, e.stageID)))
    && match s
       case OfRecord(rec) =>
         && e.kind == (if rec.kind == Started then JobEntry else FailedStart)
         && e.id == rec.jobID && e.at == rec.at.instant && !e.unjoined
         && (rec.kind == Started ==> Timed(input, rec, e))
         && (rec.kind != Started ==> e.endedAt == 0 && e.durationMS == None && e.offsetMS == None && !e.running && e.status == "")
         && Modelled(input.usage + input.assistantUsage, rec, e.model)
       case OfLedger(use, _) =>
         && e.kind == UsageOnly && e.id == "" && e.at == use.time && e.endedAt == 0 && !e.running && e.status == ""
         && e.durationMS == None && e.offsetMS == None
         && (e.unjoined <==> use.jobID != "")
         && Names(e.model, use.channel, use.model)
         && e.usage == Folded([use])
  }

  // ----- The functions meet the descriptions -----

  lemma {:induction false} TaskAgentExact(agents: seq<AgentMeta>, taskID: string)
    ensures TaskAgent(agents, taskID).Some? ==> Runs(agents, taskID, TaskAgent(agents, taskID).value)
    ensures TaskAgent(agents, taskID).None? ==> NobodyRuns(agents, taskID)
  {
    if agents != [] && taskID != "" {
      var front, n := agents[..|agents| - 1], |agents| - 1;
      if agents[n].taskID == taskID {
        assert LastWithTask(agents, taskID, n);
      } else {
        TaskAgentExact(front, taskID);
        assert forall k :: 0 <= k < n ==> front[k] == agents[k];
        if TaskAgent(front, taskID).Some? {
          var k: nat :| LastWithTask(front, taskID, k) && front[k].id == TaskAgent(front, taskID).value;
          assert LastWithTask(agents, taskID, k);
        }
      }
    }
  }

  lemma {:induction false} AssistantExact(agents: seq<AgentMeta>)
    ensures IsAssistant(agents, AssistantID(agents))
  {
    if agents != [] && agents[0].kind != "assistant" {
      var rest := agents[1..];
      AssistantExact(rest);
      assert forall k :: 0 <= k < |rest| ==> rest[k] == agents[k + 1];
      if exists k: nat :: FirstAssistant(rest, k) && rest[k].id == AssistantID(rest) {
        var k: nat :| FirstAssistant(rest, k) && rest[k].id == AssistantID(rest);
        forall x | 0 <= x < k + 1
          ensures agents[x].kind != "assistant"
        {
          if x > 0 { assert rest[x - 1].kind != "assistant"; }
        }
        assert FirstAssistant(agents, k + 1);
      }
    } else if agents != [] {
      assert FirstAssistant(agents, 0);
    }
  }

  lemma FieldsExact(meta: Meta, own: string, root: string, taskID: string)
    ensures FieldsName(meta, ByFields(meta, own, root, taskID), own, root, taskID)
  {
    TaskAgentExact(meta.agents, taskID);
  }

  function AttributionOf(meta: Meta, s: Source): Attribution
  {
    match s
    case OfRecord(rec) => OfJob(meta, rec.labels)
    case OfLedger(use, assistant) => OfUsage(meta, use, assistant)
  }

  lemma BelongsExact(meta: Meta, s: Source)
    ensures BelongsTo(meta, s, AttributionOf(meta, s))
  {
    match s
    case OfRecord(rec) => FieldsExact(meta, rec.labels.stageID, rec.labels.rootStageID, rec.labels.taskID);
    case OfLedger(use, assistant) =>
      AssistantExact(meta.agents);
      FieldsExact(meta, use.stageID, use.rootStageID, use.taskID);
  }

  lemma {:induction false} FinishExact(jobs: seq<Record>, id: string)
    ensures FinishOf(jobs, id).Some? ==> exists k: nat :: LastFinish(jobs, id, k) && jobs[k] == FinishOf(jobs, id).value
    ensures FinishOf(jobs, id).None? ==> NeverFinished(jobs, id)
  {
    if jobs != [] {
      var n, front := |jobs| - 1, jobs[..|jobs| - 1];
      FinishExact(front, id);
      if jobs[n].kind == Finished && jobs[n].jobID == id {
        assert LastFinish(jobs, id, n);
      } else if FinishOf(front, id).Some? {
        var k: nat :| LastFinish(front, id, k) && front[k] == FinishOf(front, id).value;
        assert LastFinish(jobs, id, k);
      } else {
        assert forall x :: 0 <= x < n ==> jobs[x] == front[x];
      }
    }
  }

  lemma {:induction false} RecordsExact(recs: seq<UsageRecord>, rec: Record, hint: string)
    requires Names(hint, rec.labels.channel, rec.labels.model)
    ensures Modelled(recs, rec, UsageModel(RecordsFor(recs, rec.jobID), hint))
  {
    if recs != [] {
      var n, front, last := |recs| - 1, recs[..|recs| - 1], recs[|recs| - 1];
      RecordsExact(front, rec, hint);
      assert forall k :: 0 <= k < n ==> recs[k] == front[k];
      var before := RecordsFor(front, rec.jobID);
      if ForJob(last, rec.jobID) {
        ModelPush(before, last, hint);
        NoModel(front, rec.jobID);
      }
    }
  }

  predicate NoneNamed(recs: seq<UsageRecord>)
  {
    forall k :: 0 <= k < |recs| ==> recs[k].model == ""
  }

  lemma {:induction false} ModelPush(recs: seq<UsageRecord>, last: UsageRecord, hint: string)
    ensures UsageModel(recs + [last], hint) ==
      if NoneNamed(recs) then (if last.model == "" then hint else ModelKey(last.channel, last.model)) else UsageModel(recs, hint)
    ensures NoneNamed(recs) ==> UsageModel(recs, hint) == hint
  {
    if recs == [] {
      assert [last][1..] == [];
    } else {
      ModelPush(recs[1..], last, hint);
      assert (recs + [last])[1..] == recs[1..] + [last];
      assert NoneNamed(recs) <==> recs[0].model == "" && NoneNamed(recs[1..]);
    }
  }

  lemma {:induction false} NoModel(recs: seq<UsageRecord>, id: string)
    ensures NoneNamed(RecordsFor(recs, id)) <==> forall k :: 0 <= k < |recs| && ForJob(recs[k], id) ==> recs[k].model == ""
  {
    if recs != [] {
      var n, front, last := |recs| - 1, recs[..|recs| - 1], recs[|recs| - 1];
      NoModel(front, id);
      assert forall k :: 0 <= k < n ==> recs[k] == front[k];
      var before := RecordsFor(front, id);
      if ForJob(last, id) {
        assert (before + [last])[..|before|] == before && (before + [last])[|before|] == last;
        assert NoneNamed(before + [last]) <==> NoneNamed(before) && last.model == "";
      }
      assert (forall k :: 0 <= k < |recs| && ForJob(recs[k], id) ==> recs[k].model == "")
        <==> (forall k :: 0 <= k < n && ForJob(front[k], id) ==> front[k].model == "") && (ForJob(last, id) ==> last.model == "");
    }
  }

  lemma TimedExact(input: Input, rec: Record, recs: seq<UsageRecord>)
    ensures Timed(input, rec, JobEntryOf(input.meta, rec, FinishOf(input.jobs, rec.jobID), recs))
  {
    FinishExact(input.jobs, rec.jobID);
    if FinishOf(input.jobs, rec.jobID).Some? {
      var k: nat :| LastFinish(input.jobs, rec.jobID, k) && input.jobs[k] == FinishOf(input.jobs, rec.jobID).value;
      forall x: nat | LastFinish(input.jobs, rec.jobID, x)
        ensures x == k
      {
      }
    }
  }

  lemma BelongsAs(meta: Meta, s: Source, e: Entry)
    requires e.agentID == AttributionOf(meta, s).agentID && e.stageID == AttributionOf(meta, s).stageID
    ensures exists kind :: BelongsTo(meta, s, Attribution(e.agentID, kind, e.stageID))
  {
    BelongsExact(meta, s);
    assert BelongsTo(meta, s, Attribution(e.agentID, AttributionOf(meta, s).kind, e.stageID));
  }

  function EntryOf(input: Input, rec: Record): Entry
  {
    var recs := RecordsFor(All(input), rec.jobID);
    if rec.kind == Started then JobEntryOf(input.meta, rec, FinishOf(input.jobs, rec.jobID), recs)
    else FailedEntryOf(input.meta, rec, recs)
  }

  lemma EntryPlain(input: Input, rec: Record)
    ensures var e, a := EntryOf(input, rec), OfJob(input.meta, rec.labels);
      && e.agentID == a.agentID && e.stageID == a.stageID
      && e.kind == (if rec.kind == Started then JobEntry else FailedStart)
      && e.id == rec.jobID && e.at == rec.at.instant && !e.unjoined
      && e.model == UsageModel(RecordsFor(All(input), rec.jobID), ModelKey(rec.labels.channel, rec.labels.model))
      && (rec.kind != Started ==> e.endedAt == 0 && e.durationMS == None && e.offsetMS == None && !e.running && e.status == "")
  {
  }

  lemma DescribesRecord(input: Input, rec: Record)
    requires Begins(rec)
    ensures Describes(input, OfRecord(rec), EntryOf(input, rec))
  {
    EntryPlain(input, rec);
    BelongsAs(input.meta, OfRecord(rec), EntryOf(input, rec));
    TimedExact(input, rec, RecordsFor(All(input), rec.jobID));
    RecordsExact(All(input), rec, ModelKey(rec.labels.channel, rec.labels.model));
  }

  lemma DescribesUse(input: Input, use: UsageRecord, assistant: bool)
    ensures Describes(input, OfLedger(use, assistant), UsageEntryOf(input.meta, use, assistant))
  {
    BelongsAs(input.meta, OfLedger(use, assistant), UsageEntryOf(input.meta, use, assistant));
  }

  ghost predicate AllDescribed(input: Input, sources: seq<Source>, entries: seq<Entry>)
  {
    |entries| == |sources| && forall i {:trigger Describes(input, sources[i], entries[i])} :: 0 <= i < |entries| ==> Describes(input, sources[i], entries[i])
  }

  lemma OneMore(input: Input, sources: seq<Source>, entries: seq<Entry>, s: Source, e: Entry)
    requires AllDescribed(input, sources, entries) && Describes(input, s, e)
    ensures AllDescribed(input, sources + [s], entries + [e])
  {
    forall i | 0 <= i < |entries| + 1
      ensures Describes(input, (sources + [s])[i], (entries + [e])[i])
    {
      if i < |entries| { assert Describes(input, sources[i], entries[i]); }
    }
  }

  lemma {:induction false} JobsDescribed(input: Input, jobs: seq<Record>)
    ensures AllDescribed(input, Begun(jobs), WithJobs(input, jobs).entries)
  {
    if jobs != [] {
      var front, rec := jobs[..|jobs| - 1], jobs[|jobs| - 1];
      JobsDescribed(input, front);
      if Begins(rec) {
        DescribesRecord(input, rec);
        OneMore(input, Begun(front), WithJobs(input, front).entries, OfRecord(rec), EntryOf(input, rec));
      }
    }
  }

  lemma {:induction false} ClaimedExact(all: seq<UsageRecord>, jobs: seq<Record>, id: string)
    ensures id in Claimed(all, jobs) <==> Known(jobs, id) && RecordsFor(all, id) != []
  {
    if jobs != [] {
      var n, front := |jobs| - 1, jobs[..|jobs| - 1];
      ClaimedExact(all, front, id);
      assert forall k :: 0 <= k < n ==> jobs[k] == front[k];
    }
  }

  lemma {:induction false} OwnRecords(recs: seq<UsageRecord>, r: UsageRecord)
    requires r in recs && r.jobID != ""
    ensures RecordsFor(recs, r.jobID) != []
  {
    var front := recs[..|recs| - 1];
    if recs[|recs| - 1] != r {
      assert r in front by {
        var k :| 0 <= k < |recs| && recs[k] == r;
        assert front[k] == r;
      }
      OwnRecords(front, r);
    }
  }

  lemma {:induction false} UsageDescribed(input: Input, f: Facts, before: seq<Source>, recs: seq<UsageRecord>, assistant: bool)
    requires AllDescribed(input, before, f.entries) && forall k :: 0 <= k < |recs| ==> recs[k] in All(input)
    ensures AllDescribed(input, before + LeftOver(input.jobs, recs, assistant),
                         WithUsage(input.meta, Claimed(All(input), input.jobs), f, recs, assistant).entries)
  {
    if recs == [] {
      assert before + [] == before;
    } else {
      var front, last := recs[..|recs| - 1], recs[|recs| - 1];
      assert forall k :: 0 <= k < |front| ==> front[k] == recs[k];
      UsageDescribed(input, f, before, front, assistant);
      ClaimedExact(All(input), input.jobs, last.jobID);
      if last.jobID != "" { OwnRecords(All(input), last); }
      if !(last.jobID != "" && Known(input.jobs, last.jobID)) {
        var left := LeftOver(input.jobs, front, assistant);
        DescribesUse(input, last, assistant);
        OneMore(input, before + left, WithUsage(input.meta, Claimed(All(input), input.jobs), f, front, assistant).entries,
                OfLedger(last, assistant), UsageEntryOf(input.meta, last, assistant));
        assert (before + left) + [OfLedger(last, assistant)] == before + (left + [OfLedger(last, assistant)]);
      }
    }
  }

  lemma PlacingKeeps(input: Input, s: Source, e: Entry)
    requires Describes(input, s, e)
    ensures Describes(input, s, PlacedEntry(input.jobs, e))
  {
    var kind :| BelongsTo(input.meta, s, Attribution(e.agentID, kind, e.stageID));
    assert BelongsTo(input.meta, s, Attribution(PlacedEntry(input.jobs, e).agentID, kind, PlacedEntry(input.jobs, e).stageID));
  }

  /** Main result: the facts hold one entry for each beginning of a job and for each usage record of no job known, in this
      order, and every entry says of its source who it belongs to, when it was and how it ended. */
  lemma EntriesDescribeSources(input: Input)
    ensures AllDescribed(input, SourcesOf(input), Built(input).entries)
  {
    var claimed := Claimed(All(input), input.jobs);
    var f := WithJobs(input, input.jobs);
    JobsDescribed(input, input.jobs);
    UsageDescribed(input, f, Begun(input.jobs), input.usage, false);
    UsageDescribed(input, WithUsage(input.meta, claimed, f, input.usage, false),
                   Begun(input.jobs) + LeftOver(input.jobs, input.usage, false), input.assistantUsage, true);
    forall i | 0 <= i < |Joined(input).entries|
      ensures Describes(input, SourcesOf(input)[i], Built(input).entries[i])
    {
      PlacingKeeps(input, SourcesOf(input)[i], Joined(input).entries[i]);
    }
  }

  // ----- The agents -----

  /** The ID is the prefix itself or continues it after a colon. */
  predicate Under(id: string, prefix: string)
  {
    id == prefix || (|id| > |prefix| && id[..|prefix|] == prefix && id[|prefix|] == ':')
  }

  predicate KindByID(id: string, kind: string)
  {
    if id == "run_overhead" then kind == "run_overhead"
    else if Under(id, "stage") then kind == "stage"
    else if Under(id, "helper") then kind == "helper"
    else if Under(id, "run") then kind == "run_agent"
    else if Under(id, "verify") then kind == "verify"
    else if Under(id, "side") then kind == "assistant"
    else kind == "unknown"
  }

  ghost predicate KindByFields(meta: Meta, own: string, root: string, taskID: string, id: string, kind: string)
  {
    if !NobodyRuns(meta.agents, taskID) then KindByID(id, kind)
    else if taskID != "" then kind == "helper"
    else if root != "" || own != "" then kind == "stage"
    else kind == "unknown"
  }

  /** What the source itself says of the agent's kind. */
  ghost predicate DeclaredKind(meta: Meta, s: Source, id: string, kind: string)
  {
    match s
    case OfRecord(rec) =>
      if rec.labels.agentID == "" then KindByFields(meta, rec.labels.stageID, rec.labels.rootStageID, rec.labels.taskID, id, kind)
      else if rec.labels.agentKind != "" then kind == rec.labels.agentKind
      else KindByID(id, kind)
    case OfLedger(use, assistant) =>
      if assistant then kind == "assistant"
      else if use.scope == "run_overhead" then kind == "run_overhead"
      else KindByFields(meta, use.stageID, use.rootStageID, use.taskID, id, kind)
  }

  predicate LastParticipant(agents: seq<AgentMeta>, id: string, k: nat)
  {
    k < |agents| && agents[k].id == id && forall x :: k < x < |agents| ==> agents[x].id != id
  }

  /** The metadata knows better, if it says anything. */
  ghost predicate KindIs(meta: Meta, s: Source, id: string, kind: string)
  {
    && (forall k: nat :: LastParticipant(meta.agents, id, k) && meta.agents[k].kind != "" ==> kind == meta.agents[k].kind)
    && ((forall k: nat :: LastParticipant(meta.agents, id, k) ==> meta.agents[k].kind == "") ==> DeclaredKind(meta, s, id, kind))
  }

  lemma {:induction false} PrefixUnder(id: string, p: string)
    requires p != "" && forall k :: 0 <= k < |p| ==> p[k] != ':'
    ensures Under(id, p) <==> Prefix(id) == p
    decreases |id|
  {
    if id != "" && id[0] != ':' {
      if id[0] == p[0] && |p| > 1 {
        PrefixUnder(id[1..], p[1..]);
        UnderTail(id, p);
      } else if id[0] == p[0] {
        assert p == [p[0]];
        assert Prefix(id) == p <==> Prefix(id[1..]) == "";
      }
    }
  }

  lemma UnderTail(id: string, p: string)
    requires id != "" && p != "" && id[0] == p[0]
    ensures Under(id, p) <==> Under(id[1..], p[1..])
  {
    assert id == [id[0]] + id[1..] && p == [p[0]] + p[1..];
    if |id| > |p| {
      assert id[1..][..|p| - 1] == id[1..|p|];
      assert id[..|p|] == [id[0]] + id[1..|p|];
    }
  }

  lemma KindOfID(id: string)
    ensures KindByID(id, KindFromID(id))
  {
    PrefixUnder(id, "stage");
    PrefixUnder(id, "helper");
    PrefixUnder(id, "run");
    PrefixUnder(id, "verify");
    PrefixUnder(id, "side");
  }

  lemma {:induction false} MetaKindExact(agents: seq<AgentMeta>, id: string)
    ensures forall k: nat :: LastParticipant(agents, id, k) ==> MetaKind(agents, id) == agents[k].kind
    ensures MetaKind(agents, id) != "" ==> exists k: nat :: LastParticipant(agents, id, k)
  {
    if agents != [] {
      var n, front := |agents| - 1, agents[..|agents| - 1];
      MetaKindExact(front, id);
      if agents[n].id == id {
        assert LastParticipant(agents, id, n);
      } else {
        forall k: nat | LastParticipant(agents, id, k)
          ensures LastParticipant(front, id, k)
        {
        }
        if MetaKind(front, id) != "" {
          var k: nat :| LastParticipant(front, id, k);
          assert LastParticipant(agents, id, k);
        }
      }
    }
  }

  lemma DeclaredExact(meta: Meta, s: Source)
    ensures DeclaredKind(meta, s, AttributionOf(meta, s).agentID, AttributionOf(meta, s).kind)
  {
    KindOfID(AttributionOf(meta, s).agentID);
    match s
    case OfRecord(rec) => TaskAgentExact(meta.agents, rec.labels.taskID);
    case OfLedger(use, _) => TaskAgentExact(meta.agents, use.taskID);
  }

  /** The agent is registered as its first source says. */
  ghost predicate FirstSeenAt(meta: Meta, sources: seq<Source>, id: string, ref: AgentRef, i: nat)
  {
    && i < |sources| && AttributionOf(meta, sources[i]).agentID == id
    && (forall x :: 0 <= x < i ==> AttributionOf(meta, sources[x]).agentID != id)
    && KindIs(meta, sources[i], id, ref.kind) && (ref.outside <==> ref.kind == "assistant")
  }

  ghost predicate AgentsFit(meta: Meta, sources: seq<Source>, agents: map<string, AgentRef>)
  {
    && (forall i :: 0 <= i < |sources| ==> AttributionOf(meta, sources[i]).agentID in agents)
    && (forall id :: id in agents ==> exists i: nat :: FirstSeenAt(meta, sources, id, agents[id], i))
  }

  lemma RegisteredFits(meta: Meta, sources: seq<Source>, agents: map<string, AgentRef>, s: Source)
    requires AgentsFit(meta, sources, agents)
    ensures AgentsFit(meta, sources + [s], Registered(meta, agents, AttributionOf(meta, s)))
  {
    var a, more := AttributionOf(meta, s), sources + [s];
    var after := Registered(meta, agents, a);
    forall id | id in after
      ensures exists i: nat :: FirstSeenAt(meta, more, id, after[id], i)
    {
      if id in agents {
        var i: nat :| FirstSeenAt(meta, sources, id, agents[id], i);
        assert FirstSeenAt(meta, more, id, after[id], i);
      } else {
        MetaKindExact(meta.agents, id);
        DeclaredExact(meta, s);
        assert KindIs(meta, s, id, after[id].kind);
        assert FirstSeenAt(meta, more, id, after[id], |sources|);
      }
    }
  }

  lemma {:induction false} JobAgents(input: Input, jobs: seq<Record>)
    ensures AgentsFit(input.meta, Begun(jobs), WithJobs(input, jobs).agents)
  {
    if jobs != [] {
      JobAgents(input, jobs[..|jobs| - 1]);
      if Begins(jobs[|jobs| - 1]) {
        RegisteredFits(input.meta, Begun(jobs[..|jobs| - 1]), WithJobs(input, jobs[..|jobs| - 1]).agents, OfRecord(jobs[|jobs| - 1]));
      }
    }
  }

  lemma {:induction false} UsageAgents(input: Input, f: Facts, before: seq<Source>, recs: seq<UsageRecord>, assistant: bool)
    requires AgentsFit(input.meta, before, f.agents) && forall k :: 0 <= k < |recs| ==> recs[k] in All(input)
    ensures AgentsFit(input.meta, before + LeftOver(input.jobs, recs, assistant),
                      WithUsage(input.meta, Claimed(All(input), input.jobs), f, recs, assistant).agents)
  {
    if recs == [] {
      assert before + [] == before;
    } else {
      var front, last := recs[..|recs| - 1], recs[|recs| - 1];
      assert forall k :: 0 <= k < |front| ==> front[k] == recs[k];
      UsageAgents(input, f, before, front, assistant);
      ClaimedExact(All(input), input.jobs, last.jobID);
      if last.jobID != "" { OwnRecords(All(input), last); }
      if !(last.jobID != "" && Known(input.jobs, last.jobID)) {
        var left := LeftOver(input.jobs, front, assistant);
        RegisteredFits(input.meta, before + left, WithUsage(input.meta, Claimed(All(input), input.jobs), f, front, assistant).agents,
                       OfLedger(last, assistant));
        assert (before + left) + [OfLedger(last, assistant)] == before + (left + [OfLedger(last, assistant)]);
      }
    }
  }

  /** Main result: every agent of the facts has an entry, is of the kind the metadata names or else its first source does, and
      is outside the run's total exactly if that is the Assistant's. */
  lemma AgentsDescribeSources(input: Input)
    ensures AgentsFit(input.meta, SourcesOf(input), Built(input).agents)
  {
    var claimed := Claimed(All(input), input.jobs);
    var f := WithJobs(input, input.jobs);
    JobAgents(input, input.jobs);
    UsageAgents(input, f, Begun(input.jobs), input.usage, false);
    UsageAgents(input, WithUsage(input.meta, claimed, f, input.usage, false),
                Begun(input.jobs) + LeftOver(input.jobs, input.usage, false), input.assistantUsage, true);
  }
}
