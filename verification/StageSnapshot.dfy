/** The frozen picture of one stage: what its jobs looked like at the moment of a terminal transition. */
module StageSnapshot {
  import opened Options
  import opened JobRecord
  import opened Usage
  import opened Analytics
  import opened AnalyticsQuery
  import Folding

  datatype StageJobs = StageJobs(count: nat, active: nat, measured: nat, unknownTime: nat, durationMS: int)

  datatype StageUsage = StageUsage(metered: nat, unmetered: nat, pending: nat, tokens: Tokens)

  datatype JobClass = NotYet | Measured(durationMS: int) | Active | UnknownTime

  /** A job as of the moment: a later end is not known yet. */
  function ClassAt(e: Entry, at: int): JobClass
  {
    if e.at > at then NotYet
    else if e.endedAt != 0 && e.endedAt <= at && e.durationMS.Some? then Measured(e.durationMS.value)
    else if e.running || e.endedAt != 0 then Active
    else UnknownTime
  }

  function Counted(s: StageJobs, c: JobClass): StageJobs
  {
    match c
    case NotYet => s
    case Measured(d) => s.(count := s.count + 1, measured := s.measured + 1, durationMS := s.durationMS + d)
    case Active => s.(count := s.count + 1, active := s.active + 1)
    case UnknownTime => s.(count := s.count + 1, unknownTime := s.unknownTime + 1)
  }

  predicate OfStage(e: Entry, stageID: string)
  {
    e.stageID == stageID && !e.unjoined
  }

  function JobsAt(entries: seq<Entry>, stageID: string, at: int): StageJobs
  {
    if entries == [] then StageJobs(0, 0, 0, 0, 0) else
      var front := JobsAt(entries[..|entries| - 1], stageID, at);
      var e := entries[|entries| - 1];
      if OfStage(e, stageID) && e.kind == JobEntry then Counted(front, ClassAt(e, at)) else front
  }

  /** The usage of work finished by then; jobs still running keep theirs to themselves. */
  function UsageAt(entries: seq<Entry>, stageID: string, at: int): StageUsage
  {
    if entries == [] then StageUsage(0, 0, 0, NoTokens()) else
      var front := UsageAt(entries[..|entries| - 1], stageID, at);
      var e := entries[|entries| - 1];
      if !OfStage(e, stageID) || (e.kind == JobEntry && e.at > at) then front
      else if e.kind == JobEntry && ClassAt(e, at).Active? then front.(pending := front.pending + 1)
      else match TokenStateOf(e)
           case Metered => front.(metered := front.metered + 1, tokens := AddTokens(front.tokens, e.usage.tokens))
           case Unmetered => front.(unmetered := front.unmetered + 1)
           case _ => front
  }

  /** A journal's finish records carry their duration, so an ended job is measured. */
  predicate EndsMeasured(entries: seq<Entry>)
  {
    forall i :: 0 <= i < |entries| && entries[i].endedAt != 0 ==> entries[i].durationMS.Some?
  }

  lemma {:induction false} JobsEndMeasured(input: Input, jobs: seq<Record>)
    ensures EndsMeasured(WithJobs(input, jobs).entries)
  {
    if jobs != [] { JobsEndMeasured(input, jobs[..|jobs| - 1]); }
  }

  lemma {:induction false} UsageEndsMeasured(meta: Meta, claimed: set<string>, f: Facts, recs: seq<UsageRecord>, assistant: bool)
    requires EndsMeasured(f.entries)
    ensures EndsMeasured(WithUsage(meta, claimed, f, recs, assistant).entries)
  {
    if recs != [] { UsageEndsMeasured(meta, claimed, f, recs[..|recs| - 1], assistant); }
  }

  /** The facts of a run meet what the snapshot relies on. */
  lemma FactsEndMeasured(input: Input)
    ensures EndsMeasured(Placed(input.jobs, Joined(input).entries))
  {
    var claimed := Claimed(All(input), input.jobs);
    var f := WithJobs(input, input.jobs);
    JobsEndMeasured(input, input.jobs);
    UsageEndsMeasured(input.meta, claimed, f, input.usage, false);
    UsageEndsMeasured(input.meta, claimed, WithUsage(input.meta, claimed, f, input.usage, false), input.assistantUsage, true);
  }

  // ----- What the picture counts -----

  function Amount(entries: seq<Entry>, w: Entry -> int): int
  {
    Folding.Amount(entries, w)
  }

  lemma AmountPush(entries: seq<Entry>, w: Entry -> int)
    requires entries != []
    ensures Amount(entries, w) == Amount(entries[..|entries| - 1], w) + w(entries[|entries| - 1])
  {
  }

  /** A job of the stage that had begun by then. */
  predicate BegunBy(e: Entry, stageID: string, at: int)
  {
    e.kind == JobEntry && e.stageID == stageID && !e.unjoined && e.at <= at
  }

  predicate EndedBy(e: Entry, at: int)
  {
    e.endedAt != 0 && e.endedAt <= at && e.durationMS.Some?
  }

  /** Not ended by then, but running, or ended later. */
  predicate UnderWay(e: Entry, at: int)
  {
    !EndedBy(e, at) && (e.running || e.endedAt != 0)
  }

  function Begun(stageID: string, at: int): Entry -> int
  {
    (e: Entry) => AnalyticsQuery.If(BegunBy(e, stageID, at))
  }

  function Running(stageID: string, at: int): Entry -> int
  {
    (e: Entry) => AnalyticsQuery.If(BegunBy(e, stageID, at) && UnderWay(e, at))
  }

  function Ended(stageID: string, at: int): Entry -> int
  {
    (e: Entry) => AnalyticsQuery.If(BegunBy(e, stageID, at) && EndedBy(e, at))
  }

  function Lasted(stageID: string, at: int): Entry -> int
  {
    (e: Entry) => if BegunBy(e, stageID, at) && EndedBy(e, at) then e.durationMS.value else 0
  }

  lemma {:induction false} JobsAtExact(entries: seq<Entry>, stageID: string, at: int)
    ensures var jobs := JobsAt(entries, stageID, at);
      && jobs.count == Amount(entries, Begun(stageID, at))
      && jobs.active == Amount(entries, Running(stageID, at))
      && jobs.measured == Amount(entries, Ended(stageID, at))
      && jobs.durationMS == Amount(entries, Lasted(stageID, at))
      && jobs.unknownTime == jobs.count - jobs.active - jobs.measured
  {
    if entries != [] {
      JobsAtExact(entries[..|entries| - 1], stageID, at);
      AmountPush(entries, Begun(stageID, at));
      AmountPush(entries, Running(stageID, at));
      AmountPush(entries, Ended(stageID, at));
      AmountPush(entries, Lasted(stageID, at));
    }
  }

  /** Usage of the stage that counts: not of a job that began later or was still under way. */
  predicate Counts(e: Entry, stageID: string, at: int)
  {
    e.stageID == stageID && !e.unjoined && (e.kind == JobEntry ==> e.at <= at && !UnderWay(e, at))
  }

  function WithTokens(stageID: string, at: int): Entry -> bool
  {
    (e: Entry) => Counts(e, stageID, at) && HasTokens(e)
  }

  function MeteredIn(stageID: string, at: int): Entry -> int
  {
    (e: Entry) => AnalyticsQuery.If(Counts(e, stageID, at) && HasTokens(e))
  }

  function UnmeteredIn(stageID: string, at: int): Entry -> int
  {
    (e: Entry) => AnalyticsQuery.If(Counts(e, stageID, at) && !HasTokens(e) && (e.usage.present || (e.kind == JobEntry && !e.running)))
  }

  function TokenSum(): Folding.Monoid<Tokens>
  {
    Folding.Monoid(NoTokens(), (a: Tokens, b: Tokens) => AddTokens(a, b))
  }

  function TokensOfEntry(): Entry -> Tokens
  {
    (e: Entry) => e.usage.tokens
  }

  lemma {:induction false} UsageAtExact(entries: seq<Entry>, stageID: string, at: int)
    ensures var usage := UsageAt(entries, stageID, at);
      && usage.pending == Amount(entries, Running(stageID, at))
      && usage.metered == Amount(entries, MeteredIn(stageID, at))
      && usage.unmetered == Amount(entries, UnmeteredIn(stageID, at))
      && usage.tokens == Folding.Fold(TokenSum(), TokensOfEntry(), Folding.Keep(entries, WithTokens(stageID, at)))
  {
    if entries != [] {
      var front, last := entries[..|entries| - 1], entries[|entries| - 1];
      UsageAtExact(front, stageID, at);
      AmountPush(entries, Running(stageID, at));
      AmountPush(entries, MeteredIn(stageID, at));
      AmountPush(entries, UnmeteredIn(stageID, at));
      Folding.FoldPush(TokenSum(), TokensOfEntry(), Folding.Keep(front, WithTokens(stageID, at)), last);
    }
  }

  // ----- What the picture may claim -----

  datatype JournalStatus = Ok | Degraded | Unavailable

  datatype UsageState = Recorded | Disabled | Lost

  /** The circumstances of a stage: the state of the journal and of the usage store, when the journal began and when the
      stage did (0 if it has not), whether that start is unknown, and whether helper work is about to start. */
  datatype Standing = Standing(
    journal: JournalStatus,
    legacy: bool,
    recordingStartedAt: int,
    stageStartedAt: int,
    startUnknown: bool,
    usage: UsageState,
    pendingStart: bool)

  const LEGACY_JOURNAL := "legacy_journal"
  const JOBS_STORE_UNAVAILABLE := "jobs_store_unavailable"
  const STARTED_BEFORE_RECORDING := "started_before_recording"
  const ACTIVE_JOBS := "active_jobs"
  const INTERRUPTED_JOB := "interrupted_job"
  const PENDING_START := "pending_start"
  const UNMETERED_JOB := "unmetered_job"
  const PENDING_USAGE := "pending_usage"
  const USAGE_STORE_UNAVAILABLE := "usage_store_unavailable"
  const USAGE_DISABLED := "usage_disabled"

  function If(given: bool, reason: string): seq<string>
  {
    if given then [reason] else []
  }

  /** Why zero jobs or tokens of the stage are not proven. */
  function CoverageGaps(s: Standing): seq<string>
  {
    var early := !s.legacy && s.stageStartedAt != 0 && s.stageStartedAt < s.recordingStartedAt;
    (if s.legacy then [LEGACY_JOURNAL] else If(s.journal != Ok, JOBS_STORE_UNAVAILABLE))
    + If(early, STARTED_BEFORE_RECORDING)
    + If(s.startUnknown && !s.legacy && !early, STARTED_BEFORE_RECORDING)
  }

  datatype JobsClaim = JobsClaim(known: bool, complete: bool, reasons: seq<string>)

  function JobsClaimOf(s: Standing, jobs: StageJobs): JobsClaim
  {
    var gaps := CoverageGaps(s);
    var reasons := gaps + If(jobs.active > 0, ACTIVE_JOBS) + If(jobs.unknownTime > 0, INTERRUPTED_JOB) + If(s.pendingStart, PENDING_START);
    var known := LEGACY_JOURNAL !in gaps && JOBS_STORE_UNAVAILABLE !in gaps;
    JobsClaim(known, known && reasons == [], reasons)
  }

  datatype Coverage = Full | Partial | Nothing

  /** Tokens are absent when the figure is unknown; an honest zero is present. */
  datatype UsageClaim = UsageClaim(healthy: bool, coverage: Coverage, tokens: Option<Tokens>, reasons: seq<string>)

  function UsageClaimOf(s: Standing, u: StageUsage, counted: nat): UsageClaim
  {
    match s.usage
    case Lost => UsageClaim(false, Nothing, None, [USAGE_STORE_UNAVAILABLE])
    case Disabled => UsageClaim(false, Nothing, None, [USAGE_DISABLED])
    case Recorded =>
      var gaps := CoverageGaps(s);
      var reasons := If(u.unmetered > 0, UNMETERED_JOB) + If(u.pending > 0, PENDING_USAGE) + If(s.pendingStart, PENDING_START);
      var waiting := u.pending > 0 || s.pendingStart;
      if counted == 0 && !waiting && |gaps| > 0 then UsageClaim(true, Nothing, None, gaps)
      else
        var coverage :=
          if counted == 0 && waiting then Nothing
          else if u.metered > 0 && u.unmetered == 0 && !waiting then Full
          else if u.metered > 0 then Partial
          else if counted == 0 then Full
          else Nothing;
        UsageClaim(true, coverage, Some(u.tokens), reasons)
  }

  method Snapshot(entries: seq<Entry>, stageID: string, at: int, s: Standing)
    returns (jobs: StageJobs, claim: JobsClaim, usage: StageUsage, figure: UsageClaim)
    requires EndsMeasured(entries)
    ensures jobs == JobsAt(entries, stageID, at) && usage == UsageAt(entries, stageID, at)
    ensures jobs.count == jobs.active + jobs.measured + jobs.unknownTime
    ensures claim == JobsClaimOf(s, jobs) && figure == UsageClaimOf(s, usage, usage.metered + usage.unmetered)
  {
    jobs, usage := StageJobs(0, 0, 0, 0, 0), StageUsage(0, 0, 0, NoTokens());
    var counted := 0;
    for i := 0 to |entries|
      invariant jobs == JobsAt(entries[..i], stageID, at) && usage == UsageAt(entries[..i], stageID, at)
      invariant jobs.count == jobs.active + jobs.measured + jobs.unknownTime
      invariant counted == usage.metered + usage.unmetered
    {
      var e := entries[i];
      assert entries[..i + 1][..i] == entries[..i];
      if e.stageID != stageID || e.unjoined {
        continue;
      }
      if e.kind == JobEntry {
        if e.at > at {
          continue;
        }
        jobs := jobs.(count := jobs.count + 1);
        if e.endedAt != 0 && e.endedAt <= at {
          jobs := jobs.(measured := jobs.measured + 1, durationMS := jobs.durationMS + e.durationMS.value);
        } else if e.running || e.endedAt != 0 {
          jobs := jobs.(active := jobs.active + 1);
          usage := usage.(pending := usage.pending + 1);
          continue;
        } else {
          jobs := jobs.(unknownTime := jobs.unknownTime + 1);
        }
      }
      match TokenStateOf(e) {
        case Metered =>
          usage := usage.(metered := usage.metered + 1, tokens := AddTokens(usage.tokens, e.usage.tokens));
          counted := counted + 1;
        case Unmetered =>
          usage := usage.(unmetered := usage.unmetered + 1);
          counted := counted + 1;
        case _ =>
      }
    }
    assert entries[..|entries|] == entries;
    claim, figure := JobsClaimOf(s, jobs), UsageClaimOf(s, usage, counted);
  }

  /** The journal saw the whole stage. */
  predicate Witnessed(s: Standing)
  {
    && s.journal == Ok && !s.legacy && !s.startUnknown
    && (s.stageStartedAt == 0 || s.stageStartedAt >= s.recordingStartedAt)
  }

  /** A picture is complete exactly when the journal saw the whole stage and nothing is running, interrupted or about to
      start; it is silent about its shortcomings in no other case. */
  lemma CompleteExact(s: Standing, jobs: StageJobs)
    ensures JobsClaimOf(s, jobs).complete <==> Witnessed(s) && jobs.active == 0 && jobs.unknownTime == 0 && !s.pendingStart
    ensures JobsClaimOf(s, jobs).complete <==> JobsClaimOf(s, jobs).reasons == []
    ensures JobsClaimOf(s, jobs).known <==> s.journal == Ok && !s.legacy
    ensures CoverageGaps(s) == [] <==> Witnessed(s)
  {
    var early := If(!s.legacy && s.stageStartedAt != 0 && s.stageStartedAt < s.recordingStartedAt, STARTED_BEFORE_RECORDING);
    if s.legacy || s.journal != Ok {
      assert CoverageGaps(s)[0] == if s.legacy then LEGACY_JOURNAL else JOBS_STORE_UNAVAILABLE;
    } else {
      assert STARTED_BEFORE_RECORDING[0] == 's' && LEGACY_JOURNAL[0] == 'l' && JOBS_STORE_UNAVAILABLE[0] == 'j';
    }
  }

  /** When tokens are shown at all, and how far they may be trusted: nothing is said against a figure exactly when it
      covers everything. */
  lemma FigureExact(s: Standing, u: StageUsage)
    ensures var figure, waiting := UsageClaimOf(s, u, u.metered + u.unmetered), u.pending > 0 || s.pendingStart;
      && (figure.tokens.Some? <==> s.usage == Recorded && (u.metered + u.unmetered > 0 || waiting || Witnessed(s)))
      && (figure.tokens.Some? ==> figure.tokens.value == u.tokens)
      && (figure.coverage == Full <==> s.usage == Recorded && u.unmetered == 0 && !waiting && (u.metered > 0 || Witnessed(s)))
      && (figure.coverage == Partial <==> s.usage == Recorded && u.metered > 0 && (u.unmetered > 0 || waiting))
      && (figure.reasons == [] <==> figure.coverage == Full)
  {
    CompleteExact(s, StageJobs(0, 0, 0, 0, 0));
  }

  // ----- The picture over the journal -----

  /** The class of a job record given the end the journal knows. */
  function RecordClass(meta: Meta, rec: Record, end: Option<Record>, at: int): JobClass
  {
    ClassAt(JobEntryOf(meta, rec, end, []), at)
  }

  function JournalJobsAt(meta: Meta, journal: seq<Record>, jobs: seq<Record>, stageID: string, at: int): StageJobs
  {
    if jobs == [] then StageJobs(0, 0, 0, 0, 0) else
      var front := JournalJobsAt(meta, journal, jobs[..|jobs| - 1], stageID, at);
      var rec := jobs[|jobs| - 1];
      if rec.kind == Started && OfJob(meta, rec.labels).stageID == stageID
      then Counted(front, RecordClass(meta, rec, FinishOf(journal, rec.jobID), at)) else front
  }

  lemma JobsAtPush(entries: seq<Entry>, e: Entry, stageID: string, at: int)
    ensures JobsAt(entries + [e], stageID, at) ==
      if OfStage(e, stageID) && e.kind == JobEntry then Counted(JobsAt(entries, stageID, at), ClassAt(e, at))
      else JobsAt(entries, stageID, at)
  {
    assert (entries + [e])[..|entries|] == entries;
  }

  lemma ClassIgnoresUsage(meta: Meta, rec: Record, end: Option<Record>, recs: seq<UsageRecord>, at: int)
    ensures ClassAt(JobEntryOf(meta, rec, end, recs), at) == RecordClass(meta, rec, end, at)
    ensures var e := JobEntryOf(meta, rec, end, recs);
      e.kind == JobEntry && !e.unjoined && e.stageID == OfJob(meta, rec.labels).stageID
  {
  }

  lemma JobPart(input: Input, f: Facts, rec: Record, recs: seq<UsageRecord>, stageID: string, at: int)
    ensures var before := JobsAt(f.entries, stageID, at);
      JobsAt(WithJob(input, f, rec, recs).entries, stageID, at) ==
        if rec.kind == Started && OfJob(input.meta, rec.labels).stageID == stageID
        then Counted(before, RecordClass(input.meta, rec, FinishOf(input.jobs, rec.jobID), at)) else before
  {
    if rec.kind == Started {
      var end := FinishOf(input.jobs, rec.jobID);
      ClassIgnoresUsage(input.meta, rec, end, recs, at);
      JobsAtPush(f.entries, JobEntryOf(input.meta, rec, end, recs), stageID, at);
    } else if rec.kind == StartFailed {
      JobsAtPush(f.entries, FailedEntryOf(input.meta, rec, recs), stageID, at);
    }
  }

  lemma {:induction false} JobsPart(input: Input, jobs: seq<Record>, stageID: string, at: int)
    ensures JobsAt(WithJobs(input, jobs).entries, stageID, at) == JournalJobsAt(input.meta, input.jobs, jobs, stageID, at)
  {
    if jobs != [] {
      var front, rec := jobs[..|jobs| - 1], jobs[|jobs| - 1];
      JobsPart(input, front, stageID, at);
      JobPart(input, WithJobs(input, front), rec, RecordsFor(All(input), rec.jobID), stageID, at);
    }
  }

  lemma {:induction false} UsagePart(meta: Meta, claimed: set<string>, f: Facts, recs: seq<UsageRecord>, assistant: bool, stageID: string, at: int)
    ensures JobsAt(WithUsage(meta, claimed, f, recs, assistant).entries, stageID, at) == JobsAt(f.entries, stageID, at)
  {
    if recs != [] {
      var front, rec := recs[..|recs| - 1], recs[|recs| - 1];
      UsagePart(meta, claimed, f, front, assistant, stageID, at);
      JobsAtPush(WithUsage(meta, claimed, f, front, assistant).entries, UsageEntryOf(meta, rec, assistant), stageID, at);
    }
  }

  lemma {:induction false} PlacedPart(jobs: seq<Record>, entries: seq<Entry>, stageID: string, at: int)
    ensures JobsAt(Placed(jobs, entries), stageID, at) == JobsAt(entries, stageID, at)
  {
    if entries != [] {
      PlacedPart(jobs, entries[..|entries| - 1], stageID, at);
      assert Placed(jobs, entries)[..|entries| - 1] == Placed(jobs, entries[..|entries| - 1]);
    }
  }

  /** The job counts of a stage come from the journal and the metadata alone; no usage record has a say in them. */
  lemma JobsFromJournal(input: Input, stageID: string, at: int)
    ensures JobsAt(Placed(input.jobs, Joined(input).entries), stageID, at)
      == JournalJobsAt(input.meta, input.jobs, input.jobs, stageID, at)
  {
    var claimed := Claimed(All(input), input.jobs);
    var f := WithJobs(input, input.jobs);
    PlacedPart(input.jobs, Joined(input).entries, stageID, at);
    UsagePart(input.meta, claimed, WithUsage(input.meta, claimed, f, input.usage, false), input.assistantUsage, true, stageID, at);
    UsagePart(input.meta, claimed, f, input.usage, false, stageID, at);
    JobsPart(input, input.jobs, stageID, at);
  }

  // ----- Freezing -----

  predicate Live(meta: Meta, rec: Record)
  {
    meta.liveSince != 0 && meta.liveSince <= rec.at.instant
  }

  predicate StartedBy(rec: Record, id: string, at: int)
  {
    rec.kind == Started && rec.jobID == id && rec.at.instant <= at
  }

  /** A record made after the moment: a start, or the first end of a job. */
  predicate After(journal: seq<Record>, rec: Record, at: int)
  {
    && Acceptable(rec)
    && (rec.kind == Started ==> rec.at.instant > at)
    && (rec.kind == Finished ==>
          && rec.at.instant > at
          && forall i :: 0 <= i < |journal| && StartedBy(journal[i], rec.jobID, at) ==> FinishOf(journal, rec.jobID).None?)
  }

  /** A record that may be appended without disturbing the picture as of the moment: one that says nothing about that
      moment, or the later end of a job that was alive then. */
  predicate Later(meta: Meta, journal: seq<Record>, rec: Record, at: int)
  {
    && After(journal, rec, at)
    && (rec.kind == Finished ==> forall i :: 0 <= i < |journal| && StartedBy(journal[i], rec.jobID, at) ==> Live(meta, journal[i]))
  }

  lemma {:induction false} FinishOfAppend(a: seq<Record>, b: seq<Record>, id: string)
    ensures FinishOf(a + b, id) == if FinishOf(b, id).Some? then FinishOf(b, id) else FinishOf(a, id)
  {
    if b == [] {
      assert a + b == a;
    } else {
      assert (a + b)[..|a + b| - 1] == a + b[..|b| - 1];
      FinishOfAppend(a, b[..|b| - 1], id);
    }
  }

  lemma {:induction false} FinishOfMember(jobs: seq<Record>, id: string)
    requires FinishOf(jobs, id).Some?
    ensures var end := FinishOf(jobs, id).value;
      end in jobs && end.kind == Finished && end.jobID == id
  {
    if !(jobs[|jobs| - 1].kind == Finished && jobs[|jobs| - 1].jobID == id) {
      FinishOfMember(jobs[..|jobs| - 1], id);
    }
  }

  /** A job known at the moment keeps its class when the journal grows by later records. */
  lemma SameClass(meta: Meta, journal: seq<Record>, extra: seq<Record>, i: nat, at: int)
    requires i < |journal| && journal[i].kind == Started
    requires forall j :: 0 <= j < |extra| ==> Later(meta, journal, extra[j], at)
    ensures RecordClass(meta, journal[i], FinishOf(journal + extra, journal[i].jobID), at)
      == RecordClass(meta, journal[i], FinishOf(journal, journal[i].jobID), at)
  {
    var rec := journal[i];
    FinishOfAppend(journal, extra, rec.jobID);
    if FinishOf(extra, rec.jobID).Some? && rec.at.instant <= at {
      FinishOfMember(extra, rec.jobID);
      var end := FinishOf(extra, rec.jobID).value;
      var j :| 0 <= j < |extra| && extra[j] == end;
      assert Later(meta, journal, extra[j], at) && StartedBy(rec, extra[j].jobID, at);
    }
  }

  lemma {:induction false} SameJobs(meta: Meta, journal: seq<Record>, extra: seq<Record>, n: nat, stageID: string, at: int)
    requires n <= |journal| && forall j :: 0 <= j < |extra| ==> Later(meta, journal, extra[j], at)
    ensures JournalJobsAt(meta, journal + extra, journal[..n], stageID, at) == JournalJobsAt(meta, journal, journal[..n], stageID, at)
  {
    if n > 0 {
      SameJobs(meta, journal, extra, n - 1, stageID, at);
      assert journal[..n][..n - 1] == journal[..n - 1];
      if journal[n - 1].kind == Started {
        SameClass(meta, journal, extra, n - 1, at);
      }
    }
  }

  lemma {:induction false} LaterJobsUncounted(meta: Meta, journal: seq<Record>, extra: seq<Record>, n: nat, stageID: string, at: int)
    requires n <= |extra| && forall j :: 0 <= j < |extra| ==> After(journal, extra[j], at)
    ensures JournalJobsAt(meta, journal + extra, journal + extra[..n], stageID, at)
      == JournalJobsAt(meta, journal + extra, journal, stageID, at)
  {
    if n == 0 {
      assert journal + extra[..n] == journal;
    } else {
      LaterJobsUncounted(meta, journal, extra, n - 1, stageID, at);
      assert (journal + extra[..n])[..|journal| + n - 1] == journal + extra[..n - 1];
      assert After(journal, extra[n - 1], at);
    }
  }

  /** Main result: with fixed metadata, jobs started after the moment, ends after it of jobs then alive, failed starts
      and any usage at all leave the counts, classes and measured time of every stage as they were. */
  lemma StageFrozen(before: Input, after: Input, extra: seq<Record>, stageID: string, at: int)
    requires after.meta == before.meta && after.jobs == before.jobs + extra
    requires forall j :: 0 <= j < |extra| ==> Later(before.meta, before.jobs, extra[j], at)
    ensures JobsAt(Placed(after.jobs, Joined(after).entries), stageID, at)
      == JobsAt(Placed(before.jobs, Joined(before).entries), stageID, at)
  {
    JobsFromJournal(before, stageID, at);
    JobsFromJournal(after, stageID, at);
    SameJobs(before.meta, before.jobs, extra, |before.jobs|, stageID, at);
    assert before.jobs[..|before.jobs|] == before.jobs;
    LaterJobsUncounted(before.meta, before.jobs, extra, |extra|, stageID, at);
    assert extra[..|extra|] == extra;
  }

  /** A picture without running or interrupted jobs lists ended ones only. */
  lemma {:induction false} SameEnded(meta: Meta, journal: seq<Record>, extra: seq<Record>, n: nat, stageID: string, at: int)
    requires n <= |journal| && forall j :: 0 <= j < |extra| ==> After(journal, extra[j], at)
    requires var jobs := JournalJobsAt(meta, journal, journal[..n], stageID, at); jobs.active == 0 && jobs.unknownTime == 0
    ensures JournalJobsAt(meta, journal + extra, journal[..n], stageID, at) == JournalJobsAt(meta, journal, journal[..n], stageID, at)
  {
    if n > 0 {
      var rec := journal[n - 1];
      assert journal[..n][..n - 1] == journal[..n - 1];
      SameEnded(meta, journal, extra, n - 1, stageID, at);
      FinishOfAppend(journal, extra, rec.jobID);
      if rec.kind == Started && FinishOf(extra, rec.jobID).Some? && rec.at.instant <= at && OfJob(meta, rec.labels).stageID == stageID {
        FinishOfMember(extra, rec.jobID);
      }
    }
  }

  /** A complete picture is final: whatever is recorded after the moment, alive or not, and whatever usage comes in, the
      job part stays as it is. */
  lemma CompleteIsFinal(s: Standing, before: Input, after: Input, extra: seq<Record>, stageID: string, at: int)
    requires after.meta == before.meta && after.jobs == before.jobs + extra
    requires forall j :: 0 <= j < |extra| ==> After(before.jobs, extra[j], at)
    requires JobsClaimOf(s, JobsAt(Placed(before.jobs, Joined(before).entries), stageID, at)).complete
    ensures JobsAt(Placed(after.jobs, Joined(after).entries), stageID, at)
      == JobsAt(Placed(before.jobs, Joined(before).entries), stageID, at)
  {
    CompleteExact(s, JobsAt(Placed(before.jobs, Joined(before).entries), stageID, at));
    JobsFromJournal(before, stageID, at);
    JobsFromJournal(after, stageID, at);
    assert before.jobs[..|before.jobs|] == before.jobs && extra[..|extra|] == extra;
    SameEnded(before.meta, before.jobs, extra, |before.jobs|, stageID, at);
    LaterJobsUncounted(before.meta, before.jobs, extra, |extra|, stageID, at);
  }

  /** Exactly when the end of a job may come later: one that was not alive has its class changed by it. */
  lemma LateEndExact(meta: Meta, rec: Record, end: Record, at: int)
    requires rec.kind == Started && rec.at.instant <= at && end.kind == Finished && Acceptable(end) && end.at.instant > at
    ensures RecordClass(meta, rec, Some(end), at) == RecordClass(meta, rec, None, at) <==> Live(meta, rec)
  {
  }
}
