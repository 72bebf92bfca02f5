/** Filtering, summing and grouping the facts of a run. */
module AnalyticsQuery {
  import opened Options
  import opened JobRecord
  import opened Usage
  import opened Analytics
  import opened Folding

  // ----- Sums of entries -----

  datatype Sums = Sums(
    jobs: nat,
    activeJobs: nat,
    measured: nat,
    unknown: nat,
    duration: int,
    metered: nat,
    unmetered: nat,
    pending: nat,
    tokens: Tokens,
    priced: nat,
    unpriced: nat,
    cost: real)

  function Zero(): Sums
  {
    Sums(0, 0, 0, 0, 0, 0, 0, 0, NoTokens(), 0, 0, 0.0)
  }

  function Plus(a: Sums, b: Sums): Sums
  {
    Sums(a.jobs + b.jobs, a.activeJobs + b.activeJobs, a.measured + b.measured, a.unknown + b.unknown,
         a.duration + b.duration, a.metered + b.metered, a.unmetered + b.unmetered, a.pending + b.pending,
         AddTokens(a.tokens, b.tokens), a.priced + b.priced, a.unpriced + b.unpriced, a.cost + b.cost)
  }

  function Max(a: int, b: int): int
  {
    if a < b then b else a
  }

  /** Measured, or the elapsed time of a running job. */
  function DurationAt(e: Entry, asOf: int): Option<int>
  {
    if e.running then Some(Max(asOf - e.at, 0)) else e.durationMS
  }

  datatype TokenState = NothingToCount | Metered | Unmetered | Pending

  function TokenStateOf(e: Entry): TokenState
  {
    if e.usage.present && e.usage.metered then Metered
    else if e.usage.present then Unmetered
    else if e.kind != JobEntry then NothingToCount
    else if e.running then Pending
    else Unmetered
  }

  /** The time side and the usage side of one entry. */
  function TimeShare(e: Entry, asOf: int): Sums
  {
    if e.kind != JobEntry then Zero()
    else
      var d := DurationAt(e, asOf);
      Zero().(jobs := 1, activeJobs := if e.running then 1 else 0,
            measured := if d.Some? then 1 else 0, unknown := if d.Some? then 0 else 1,
            duration := if d.Some? then d.value else 0)
  }

  function UsageShare(e: Entry): Sums
  {
    match TokenStateOf(e)
    case Metered =>
      if e.usage.priced then Zero().(metered := 1, tokens := e.usage.tokens, priced := 1, cost := e.usage.cost)
      else Zero().(metered := 1, tokens := e.usage.tokens, unpriced := 1)
    case Unmetered => Zero().(unmetered := 1)
    case Pending => Zero().(pending := 1)
    case NothingToCount => Zero()
  }

  function Share(e: Entry, asOf: int): Sums
  {
    Plus(TimeShare(e, asOf), UsageShare(e))
  }

  function SumsMonoid(): Monoid<Sums>
  {
    Monoid(Zero(), (a, b) => Plus(a, b))
  }

  lemma SumsLawful()
    ensures Lawful(SumsMonoid())
  {
    forall a, b, c
      ensures Associates(SumsMonoid(), a, b, c)
    {
      PlusAssociates(a, b, c);
    }
  }

  lemma PlusAssociates(a: Sums, b: Sums, c: Sums)
    ensures Plus(Plus(a, b), c) == Plus(a, Plus(b, c))
  {
  }

  function ShareAt(asOf: int): Entry -> Sums
  {
    e => Share(e, asOf)
  }

  function SumOf(entries: seq<Entry>, asOf: int): Sums
  {
    Fold(SumsMonoid(), ShareAt(asOf), entries)
  }

  lemma SumPush(entries: seq<Entry>, e: Entry, asOf: int)
    ensures SumOf(entries + [e], asOf) == Plus(SumOf(entries, asOf), Share(e, asOf))
  {
    FoldPush(SumsMonoid(), ShareAt(asOf), entries, e);
  }

  /** Folds entries one at a time. */
  class Accumulator {
    const asOf: int
    var sums: Sums

    constructor (asOf: int)
      ensures this.asOf == asOf && sums == Zero()
    {
      this.asOf := asOf;
      sums := Zero();
    }

    method AddTime(e: Entry)
      modifies this
      ensures sums == Plus(old(sums), TimeShare(e, asOf))
    {
      if e.kind == JobEntry {
        sums := sums.(jobs := sums.jobs + 1);
        if e.running {
          sums := sums.(activeJobs := sums.activeJobs + 1);
        }
        var d := DurationAt(e, asOf);
        if d.Some? {
          sums := sums.(measured := sums.measured + 1, duration := sums.duration + d.value);
        } else {
          sums := sums.(unknown := sums.unknown + 1);
        }
      }
    }

    method AddUsage(e: Entry)
      modifies this
      ensures sums == Plus(old(sums), UsageShare(e))
    {
      match TokenStateOf(e) {
        case Metered =>
          sums := sums.(metered := sums.metered + 1, tokens := AddTokens(sums.tokens, e.usage.tokens));
          if e.usage.priced {
            sums := sums.(priced := sums.priced + 1, cost := sums.cost + e.usage.cost);
          } else {
            sums := sums.(unpriced := sums.unpriced + 1);
          }
        case Unmetered => sums := sums.(unmetered := sums.unmetered + 1);
        case Pending => sums := sums.(pending := sums.pending + 1);
        case NothingToCount =>
      }
    }

    method Add(e: Entry)
      modifies this
      ensures sums == Plus(old(sums), Share(e, asOf))
    {
      AddTime(e);
      AddUsage(e);
      PlusAssociates(old(sums), TimeShare(e, asOf), UsageShare(e));
    }
  }

  /** What a view shows: a figure is absent when nothing stands behind it. */
  datatype Metrics = Metrics(sums: Sums, durationMS: Option<int>, counts: Option<Tokens>, costUSD: Option<real>)

  function Result(s: Sums): Metrics
  {
    Metrics(s, if s.measured > 0 then Some(s.duration) else None,
            if s.metered > 0 then Some(s.tokens) else None,
            if s.priced > 0 then Some(s.cost) else None)
  }

  function ShownTokens(m: Metrics): Tokens
  {
    if m.counts.Some? then m.counts.value else NoTokens()
  }

  /** A figure nothing stands behind is zero. */
  predicate Backed(s: Sums)
  {
    TimeBacked(s) && TokensBacked(s) && CostBacked(s)
  }

  predicate TimeBacked(s: Sums)
  {
    s.measured == 0 ==> s.duration == 0
  }

  predicate TokensBacked(s: Sums)
  {
    s.metered == 0 ==> s.tokens == NoTokens()
  }

  predicate CostBacked(s: Sums)
  {
    s.priced == 0 ==> s.cost == 0.0
  }

  lemma PlusTimeBacked(a: Sums, b: Sums)
    requires TimeBacked(a) && TimeBacked(b)
    ensures TimeBacked(Plus(a, b))
  {
  }

  lemma NoneAndNone(a: Tokens, b: Tokens)
    requires a == NoTokens() && b == NoTokens()
    ensures AddTokens(a, b) == NoTokens()
  {
  }

  lemma PlusTokensBacked(a: Sums, b: Sums)
    requires TokensBacked(a) && TokensBacked(b)
    ensures TokensBacked(Plus(a, b))
  {
    if Plus(a, b).metered == 0 {
      NoneAndNone(a.tokens, b.tokens);
    }
  }

  lemma PlusCostBacked(a: Sums, b: Sums)
    requires CostBacked(a) && CostBacked(b)
    ensures CostBacked(Plus(a, b))
  {
  }

  lemma PlusBacked(a: Sums, b: Sums)
    requires Backed(a) && Backed(b)
    ensures Backed(Plus(a, b))
  {
    PlusTimeBacked(a, b);
    PlusTokensBacked(a, b);
    PlusCostBacked(a, b);
  }

  lemma ShareBacked(e: Entry, asOf: int)
    ensures Backed(Share(e, asOf))
  {
    PlusBacked(TimeShare(e, asOf), UsageShare(e));
  }

  /** Leaving an absent figure out of a view hides nothing. */
  lemma {:induction false} SumBacked(entries: seq<Entry>, asOf: int)
    ensures Backed(SumOf(entries, asOf))
  {
    if entries != [] {
      var front, last := entries[..|entries| - 1], entries[|entries| - 1];
      SumBacked(front, asOf);
      ShareBacked(last, asOf);
      PlusBacked(SumOf(front, asOf), Share(last, asOf));
      SumPush(front, last, asOf);
      assert front + [last] == entries;
    }
  }

  lemma SumNext(entries: seq<Entry>, i: nat, asOf: int)
    requires i < |entries|
    ensures SumOf(entries[..i + 1], asOf) == Plus(SumOf(entries[..i], asOf), Share(entries[i], asOf))
  {
    SumPush(entries[..i], entries[i], asOf);
    assert entries[..i + 1] == entries[..i] + [entries[i]];
  }

  lemma SumEnds(entries: seq<Entry>, asOf: int)
    ensures SumOf(entries[..0], asOf) == Zero() && SumOf(entries[..|entries|], asOf) == SumOf(entries, asOf)
  {
    assert entries[..0] == [] && entries[..|entries|] == entries;
  }

  method MetricsOf(entries: seq<Entry>, asOf: int) returns (m: Metrics)
    ensures m == Result(SumOf(entries, asOf))
  {
    var acc := new Accumulator(asOf);
    SumEnds(entries, asOf);
    for i := 0 to |entries|
      invariant acc.asOf == asOf && acc.sums == SumOf(entries[..i], asOf)
    {
      SumNext(entries, i, asOf);
      acc.Add(entries[i]);
    }
    m := Result(acc.sums);
  }

  // ----- Filters -----

  datatype Scope = Everywhere | InStage(id: string) | RunWide | Unattributed

  datatype Filter = Filter(scope: Scope, agent: string, model: string)

  const UNKNOWN_MODEL := "unknown"

  /** An attempt that never started and left no usage. */
  predicate Unseen(e: Entry)
  {
    e.kind == FailedStart && !e.usage.present
  }

  /** The specification reads an unregistered agent as one of no kind; the queries below rely on there being none. */
  function Kind(f: Facts, e: Entry): string
  {
    if e.agentID in f.agents then f.agents[e.agentID].kind else ""
  }

  predicate OutsideTotal(f: Facts, e: Entry)
  {
    e.agentID in f.agents && f.agents[e.agentID].outside
  }

  predicate ScopeMatches(f: Facts, e: Entry, scope: Scope)
  {
    match scope
    case Everywhere => true
    case InStage(id) => e.stageID == id
    case RunWide => e.stageID == "" && Kind(f, e) != UNKNOWN_KIND
    case Unattributed => e.stageID == "" && Kind(f, e) == UNKNOWN_KIND
  }

  function ModelOrUnknown(e: Entry): string
  {
    if e.model == "" then UNKNOWN_MODEL else e.model
  }

  predicate Matches(f: Facts, e: Entry, flt: Filter)
  {
    && ScopeMatches(f, e, flt.scope)
    && if Unseen(e) then flt.agent == "" && flt.model == ""
       else (flt.agent == "" || e.agentID == flt.agent) && (flt.model == "" || ModelOrUnknown(e) == flt.model)
  }

  /** The selected entries name agents of the facts. */
  predicate Known(f: Facts, entries: seq<Entry>)
  {
    forall i :: 0 <= i < |entries| ==> entries[i].agentID in f.agents
  }

  lemma KeptKnown(f: Facts, entries: seq<Entry>, p: Entry -> bool)
    requires Known(f, entries)
    ensures Known(f, Keep(entries, p))
  {
    KeepMembers(entries, p, (e: Entry) => e.agentID in f.agents);
  }

  /** The filter as it runs; it looks the agent up without asking whether it is there. */
  method MatchEntry(f: Facts, e: Entry, flt: Filter) returns (matched: bool)
    requires e.agentID in f.agents
    ensures matched == Matches(f, e, flt)
  {
    match flt.scope {
      case Everywhere => matched := true;
      case InStage(id) => matched := e.stageID == id;
      case RunWide => matched := e.stageID == "" && f.agents[e.agentID].kind != UNKNOWN_KIND;
      case Unattributed => matched := e.stageID == "" && f.agents[e.agentID].kind == UNKNOWN_KIND;
    }
    if Unseen(e) {
      matched := matched && flt.agent == "" && flt.model == "";
    } else {
      matched := matched && (flt.agent == "" || e.agentID == flt.agent) && (flt.model == "" || ModelOrUnknown(e) == flt.model);
    }
  }

  method Select(f: Facts, flt: Filter) returns (selected: seq<Entry>)
    requires Attributed(f)
    ensures selected == Keep(f.entries, e => Matches(f, e, flt)) && Known(f, selected)
  {
    var p := e => Matches(f, e, flt);
    selected := [];
    for i := 0 to |f.entries|
      invariant selected == Keep(f.entries[..i], p)
    {
      assert f.entries[..i + 1][..i] == f.entries[..i];
      var matched := MatchEntry(f, f.entries[i], flt);
      if matched {
        selected := selected + [f.entries[i]];
      }
    }
    assert f.entries[..|f.entries|] == f.entries;
    KeptKnown(f, f.entries, p);
  }

  /** The selection without, and only with, the agents outside the run total. */
  method Split(f: Facts, entries: seq<Entry>) returns (inside: seq<Entry>, outside: seq<Entry>)
    requires Known(f, entries)
    ensures inside == Keep(entries, e => !OutsideTotal(f, e))
    ensures outside == Keep(entries, e => OutsideTotal(f, e))
  {
    inside, outside := [], [];
    var pIn, pOut := e => !OutsideTotal(f, e), e => OutsideTotal(f, e);
    for i := 0 to |entries|
      invariant inside == Keep(entries[..i], pIn) && outside == Keep(entries[..i], pOut)
    {
      assert entries[..i + 1][..i] == entries[..i];
      if f.agents[entries[i].agentID].outside {
        outside := outside + [entries[i]];
      } else {
        inside := inside + [entries[i]];
      }
    }
    assert entries[..|entries|] == entries;
  }

  method Totals(f: Facts, entries: seq<Entry>, asOf: int) returns (m: Metrics)
    requires Known(f, entries)
    ensures m == Result(SumOf(Keep(entries, e => !OutsideTotal(f, e)), asOf))
  {
    var inside, _ := Split(f, entries);
    m := MetricsOf(inside, asOf);
  }

  method Outside(f: Facts, entries: seq<Entry>, asOf: int) returns (m: Option<Metrics>)
    requires Known(f, entries)
    ensures var outside := Keep(entries, e => OutsideTotal(f, e));
      m == if outside == [] then None else Some(Result(SumOf(outside, asOf)))
  {
    var _, outside := Split(f, entries);
    if outside == [] {
      return None;
    }
    var r := MetricsOf(outside, asOf);
    m := Some(r);
  }

  // ----- Rows -----

  datatype Group = ByModel | ByAgent

  function RowKey(group: Group, e: Entry): string
  {
    if group == ByAgent then e.agentID else ModelOrUnknown(e)
  }

  /** Model rows leave out the agents outside the run total; unseen attempts have no row. */
  predicate InRows(f: Facts, group: Group, e: Entry)
  {
    !Unseen(e) && !(group == ByModel && OutsideTotal(f, e))
  }

  datatype Row = Row(key: string, sums: Sums)

  function Keys(rows: seq<Row>): seq<string>
  {
    seq(|rows|, i requires 0 <= i < |rows| => rows[i].key)
  }

  function RowSums(rows: seq<Row>): seq<Sums>
  {
    seq(|rows|, i requires 0 <= i < |rows| => rows[i].sums)
  }

  function KeyOf(group: Group): Entry -> string
  {
    e => RowKey(group, e)
  }

  /** The entries of the selection that have a row. */
  function RowEntries(f: Facts, entries: seq<Entry>, group: Group): seq<Entry>
  {
    Keep(entries, e => InRows(f, group, e))
  }

  /** One row a key, each the sum of exactly its entries. */
  ghost predicate AreRows(kept: seq<Entry>, group: Group, asOf: int, rows: seq<Row>)
  {
    && Distinct(Keys(rows))
    && (forall i :: 0 <= i < |rows| ==> rows[i].sums == Part(SumsMonoid(), ShareAt(asOf), kept, KeyOf(group), rows[i].key))
    && (forall i :: 0 <= i < |kept| ==> RowKey(group, kept[i]) in Keys(rows))
  }

  /** Rows come in order of first appearance; sorting for display comes after. */
  method Rows(f: Facts, entries: seq<Entry>, group: Group, asOf: int) returns (rows: seq<Row>)
    requires Known(f, entries)
    ensures AreRows(RowEntries(f, entries, group), group, asOf, rows)
  {
    var buckets: map<string, Sums> := map[];
    var order: seq<string> := [];
    ghost var p := e => InRows(f, group, e);
    ghost var kept: seq<Entry> := [];
    for i := 0 to |entries|
      invariant kept == Keep(entries[..i], p)
      invariant AreBuckets(SumsMonoid(), ShareAt(asOf), kept, KeyOf(group), order, buckets)
    {
      var e := entries[i];
      assert entries[..i + 1] == entries[..i] + [e];
      KeepPush(entries[..i], e, p);
      if Unseen(e) || (group == ByModel && f.agents[e.agentID].outside) {
        continue;
      }
      BucketsPush(SumsMonoid(), ShareAt(asOf), kept, e, KeyOf(group), order, buckets);
      var key := RowKey(group, e);
      var before := if key in buckets then buckets[key] else SumsMonoid().zero;
      if key !in buckets {
        order := order + [key];
      }
      buckets := buckets[key := SumsMonoid().plus(before, ShareAt(asOf)(e))];
      kept := kept + [e];
    }
    assert entries[..|entries|] == entries;
    rows := seq(|order|, i requires 0 <= i < |order| && order[i] in buckets => Row(order[i], buckets[order[i]]));
    assert Keys(rows) == order;
  }

  function RowTotal(rows: seq<Row>): Sums
  {
    Total(SumsMonoid(), RowSums(rows))
  }

  /** Main result: in every counter, duration, token category and cost, model rows add up to the totals, and agent
      rows to the totals plus what is outside them. */
  lemma RowsAddUp(f: Facts, entries: seq<Entry>, group: Group, asOf: int, rows: seq<Row>)
    requires AreRows(RowEntries(f, entries, group), group, asOf, rows)
    ensures var inside := SumOf(Keep(entries, e => !OutsideTotal(f, e)), asOf);
      var outside := SumOf(Keep(entries, e => OutsideTotal(f, e)), asOf);
      RowTotal(rows) == if group == ByModel then inside else SumsMonoid().plus(inside, outside)
  {
    SumsLawful();
    UnseenSharesNothing(entries, asOf);
    RowsAddUpTo(SumsMonoid(), ShareAt(asOf), f, entries, group, Keys(rows), RowSums(rows));
  }

  lemma UnseenShare(e: Entry, asOf: int)
    requires Unseen(e)
    ensures Share(e, asOf) == Zero()
  {
    UnseenUsage(e);
    ZeroAdds(TimeShare(e, asOf), UsageShare(e));
  }

  lemma UnseenUsage(e: Entry)
    requires Unseen(e)
    ensures UsageShare(e) == Zero()
  {
  }

  lemma ZeroAdds(a: Sums, b: Sums)
    requires a == Zero() && b == Zero()
    ensures Plus(a, b) == a
  {
  }

  lemma UnseenSharesNothing(entries: seq<Entry>, asOf: int)
    ensures forall i :: 0 <= i < |entries| && Unseen(entries[i]) ==> ShareAt(asOf)(entries[i]) == SumsMonoid().zero
  {
    forall i | 0 <= i < |entries| && Unseen(entries[i])
      ensures ShareAt(asOf)(entries[i]) == SumsMonoid().zero
    {
      UnseenShare(entries[i], asOf);
    }
  }

  /** The same for any way of adding up entries in which unseen attempts count for nothing. */
  lemma RowsAddUpTo<S(!new)>(m: Monoid<S>, share: Entry -> S, f: Facts, entries: seq<Entry>, group: Group, keys: seq<string>, sums: seq<S>)
    requires Lawful(m) && Distinct(keys) && |sums| == |keys|
    requires forall i :: 0 <= i < |entries| && Unseen(entries[i]) ==> share(entries[i]) == m.zero
    requires forall i :: 0 <= i < |keys| ==> sums[i] == Part(m, share, RowEntries(f, entries, group), KeyOf(group), keys[i])
    requires forall i :: 0 <= i < |RowEntries(f, entries, group)| ==> RowKey(group, RowEntries(f, entries, group)[i]) in keys
    ensures var inside := Fold(m, share, Keep(entries, e => !OutsideTotal(f, e)));
      var outside := Fold(m, share, Keep(entries, e => OutsideTotal(f, e)));
      Total(m, sums) == if group == ByModel then inside else m.plus(inside, outside)
  {
    var kept := RowEntries(f, entries, group);
    TotalOfParts(m, share, kept, KeyOf(group), keys, sums);
    PartitionSum(m, share, kept, KeyOf(group), keys);
    var isIn, isOut, seen := (e: Entry) => !OutsideTotal(f, e), (e: Entry) => OutsideTotal(f, e), (e: Entry) => !Unseen(e);
    if group == ByModel {
      KeepAndKeep(entries, isIn, seen, e => InRows(f, group, e));
      KeepMembers(entries, isIn, e => Unseen(e) ==> share(e) == m.zero);
      FoldWithout(m, share, Keep(entries, isIn), seen);
    } else {
      KeepSame(entries, e => InRows(f, group, e), seen);
      FoldWithout(m, share, entries, seen);
      FoldSplit(m, share, entries, isIn, isOut);
    }
  }

  // ----- Scopes -----

  /** The one narrow scope an entry belongs to. */
  function ScopeOf(f: Facts, e: Entry): Scope
  {
    if e.stageID != "" then InStage(e.stageID) else if Kind(f, e) == UNKNOWN_KIND then Unattributed else RunWide
  }

  /** The stage of the empty name is not a stage: it would take in everything without one. */
  predicate NarrowScope(scope: Scope)
  {
    !scope.Everywhere? && scope != InStage("")
  }

  lemma ScopeExact(f: Facts, e: Entry, scope: Scope)
    requires NarrowScope(scope)
    ensures Matches(f, e, Filter(scope, "", "")) <==> ScopeOf(f, e) == scope
  {
  }

  predicate NarrowScopes(scopes: seq<Scope>)
  {
    forall i :: 0 <= i < |scopes| ==> NarrowScope(scopes[i])
  }

  function InScope(f: Facts, scope: Scope): seq<Entry>
  {
    Keep(f.entries, e => Matches(f, e, Filter(scope, "", "")))
  }

  function ScopeKey(f: Facts): Entry -> Scope
  {
    e => ScopeOf(f, e)
  }

  lemma ScopeIsPart(f: Facts, scope: Scope)
    requires NarrowScope(scope)
    ensures InScope(f, scope) == Keep(f.entries, HasKey(ScopeKey(f), scope))
  {
    forall j | 0 <= j < |f.entries|
      ensures Matches(f, f.entries[j], Filter(scope, "", "")) == (ScopeKey(f)(f.entries[j]) == scope)
    {
      ScopeExact(f, f.entries[j], scope);
    }
    KeepSame(f.entries, e => Matches(f, e, Filter(scope, "", "")), HasKey(ScopeKey(f), scope));
  }

  /** The totals of each scope in turn. */
  function ScopeSums<S>(m: Monoid<S>, share: Entry -> S, f: Facts, scopes: seq<Scope>): seq<S>
  {
    if scopes == [] then []
    else ScopeSums(m, share, f, scopes[..|scopes| - 1]) + [Fold(m, share, InScope(f, scopes[|scopes| - 1]))]
  }

  lemma {:induction false} ScopeSumsByKey<S>(m: Monoid<S>, share: Entry -> S, f: Facts, scopes: seq<Scope>)
    requires NarrowScopes(scopes)
    ensures Total(m, ScopeSums(m, share, f, scopes)) == ByKey(m, share, f.entries, ScopeKey(f), scopes)
  {
    if scopes != [] {
      var front, last := scopes[..|scopes| - 1], scopes[|scopes| - 1];
      var before := ScopeSums(m, share, f, front);
      ScopeSumsByKey(m, share, f, front);
      ScopeIsPart(f, last);
      assert (before + [Fold(m, share, InScope(f, last))])[..|before|] == before;
    }
  }

  /** Main result: selecting scope by scope partitions the facts, for any list of scopes that covers them and in
      every counter, duration, token category and cost. */
  lemma ScopesPartition(f: Facts, scopes: seq<Scope>, asOf: int)
    requires Distinct(scopes) && NarrowScopes(scopes)
    requires forall i :: 0 <= i < |f.entries| ==> ScopeOf(f, f.entries[i]) in scopes
    ensures Total(SumsMonoid(), ScopeSums(SumsMonoid(), ShareAt(asOf), f, scopes)) == SumOf(f.entries, asOf)
  {
    SumsLawful();
    ScopeSumsByKey(SumsMonoid(), ShareAt(asOf), f, scopes);
    PartitionSum(SumsMonoid(), ShareAt(asOf), f.entries, ScopeKey(f), scopes);
  }

  // ----- What the figures mean -----

  function RealAmount(entries: seq<Entry>, w: Entry -> real): real
  {
    if entries == [] then 0.0 else RealAmount(entries[..|entries| - 1], w) + w(entries[|entries| - 1])
  }

  function If(b: bool): int
  {
    if b then 1 else 0
  }

  /** How long a job has taken: as measured, or since its start if it is running, and never less than nothing. */
  function Elapsed(e: Entry, asOf: int): int
  {
    if e.kind != JobEntry then 0
    else if e.running then (if e.at < asOf then asOf - e.at else 0)
    else if e.durationMS.Some? then e.durationMS.value
    else 0
  }

  predicate HasTokens(e: Entry)
  {
    e.usage.present && e.usage.metered
  }

  /** What each entry adds to each figure. */
  predicate Adds(s: Sums, e: Entry, asOf: int)
  {
    var job, timed := e.kind == JobEntry, e.running || e.durationMS.Some?;
    && s.jobs == If(job) && s.activeJobs == If(job && e.running)
    && s.measured == If(job && timed) && s.unknown == If(job && !timed) && s.duration == Elapsed(e, asOf)
    && s.metered == If(HasTokens(e)) && s.tokens == (if HasTokens(e) then e.usage.tokens else NoTokens())
    && s.unmetered == If(!HasTokens(e) && (e.usage.present || (job && !e.running)))
    && s.pending == If(!e.usage.present && job && e.running)
    && s.priced == If(HasTokens(e) && e.usage.priced) && s.unpriced == If(HasTokens(e) && !e.usage.priced)
    && s.cost == if HasTokens(e) && e.usage.priced then e.usage.cost else 0.0
  }

  lemma TimeShareExact(e: Entry, asOf: int)
    ensures var s, job, timed := TimeShare(e, asOf), e.kind == JobEntry, e.running || e.durationMS.Some?;
      s == Zero().(jobs := If(job), activeJobs := If(job && e.running), measured := If(job && timed), unknown := If(job && !timed),
                   duration := Elapsed(e, asOf))
  {
  }

  lemma UsageShareExact(e: Entry)
    ensures var s, job := UsageShare(e), e.kind == JobEntry;
      s == Zero().(metered := If(HasTokens(e)), tokens := if HasTokens(e) then e.usage.tokens else NoTokens(),
                   unmetered := If(!HasTokens(e) && (e.usage.present || (job && !e.running))),
                   pending := If(!e.usage.present && job && e.running),
                   priced := If(HasTokens(e) && e.usage.priced), unpriced := If(HasTokens(e) && !e.usage.priced),
                   cost := if HasTokens(e) && e.usage.priced then e.usage.cost else 0.0)
  {
  }

  lemma ShareAdds(e: Entry, asOf: int)
    ensures Adds(Share(e, asOf), e, asOf)
  {
    TimeShareExact(e, asOf);
    UsageShareExact(e);
  }

  function CostWeight(): Entry -> real
  {
    e => if HasTokens(e) && e.usage.priced then e.usage.cost else 0.0
  }

  lemma CostPush(entries: seq<Entry>, e: Entry, asOf: int)
    ensures SumOf(entries + [e], asOf).cost == SumOf(entries, asOf).cost + CostWeight()(e)
  {
    SumPush(entries, e, asOf);
    ShareAdds(e, asOf);
  }

  lemma {:induction false} CostIsAmount(entries: seq<Entry>, asOf: int)
    ensures SumOf(entries, asOf).cost == RealAmount(entries, CostWeight())
  {
    if entries != [] {
      var front, last := entries[..|entries| - 1], entries[|entries| - 1];
      CostIsAmount(front, asOf);
      CostPush(front, last, asOf);
      assert front + [last] == entries;
    }
  }

  /** Main result: any figure of a sum that adds up, be it a counter, the duration or a token category, is the amount of what
      each entry adds to it by itself. */
  lemma FiguresExact(entries: seq<Entry>, asOf: int, figure: Sums -> int, w: Entry -> int)
    requires AddsUp(SumsMonoid(), figure)
    requires forall s, e :: Adds(s, e, asOf) ==> figure(s) == w(e)
    ensures figure(SumOf(entries, asOf)) == Amount(entries, w)
  {
    forall i | 0 <= i < |entries|
      ensures Weighs(figure, ShareAt(asOf), w, entries[i])
    {
      ShareAdds(entries[i], asOf);
    }
    FigureIsAmount(SumsMonoid(), ShareAt(asOf), entries, figure, w);
  }

  /** In particular the jobs, those running, and the time they took. */
  lemma TimeFiguresExact(entries: seq<Entry>, asOf: int)
    ensures SumOf(entries, asOf).jobs == Amount(entries, (e: Entry) => If(e.kind == JobEntry))
    ensures SumOf(entries, asOf).activeJobs == Amount(entries, (e: Entry) => If(e.kind == JobEntry && e.running))
    ensures SumOf(entries, asOf).duration == Amount(entries, (e: Entry) => Elapsed(e, asOf))
  {
    FiguresExact(entries, asOf, (s: Sums) => s.jobs, (e: Entry) => If(e.kind == JobEntry));
    FiguresExact(entries, asOf, (s: Sums) => s.activeJobs, (e: Entry) => If(e.kind == JobEntry && e.running));
    FiguresExact(entries, asOf, (s: Sums) => s.duration, (e: Entry) => Elapsed(e, asOf));
  }

  // ----- Drilling down -----

  function Selected(f: Facts, flt: Filter): seq<Entry>
  {
    Keep(f.entries, (e: Entry) => Matches(f, e, flt))
  }

  function Inside(f: Facts, entries: seq<Entry>): seq<Entry>
  {
    Keep(entries, (e: Entry) => !OutsideTotal(f, e))
  }

  /** Selecting an agent gives the entries of that agent's row, in the same order. */
  lemma AgentDrillDown(f: Facts, scope: Scope, agent: string)
    requires agent != ""
    ensures Keep(RowEntries(f, Selected(f, Filter(scope, "", "")), ByAgent), HasKey(KeyOf(ByAgent), agent))
      == Selected(f, Filter(scope, agent, ""))
  {
    var wide, inRows, mine := (e: Entry) => Matches(f, e, Filter(scope, "", "")), (e: Entry) => InRows(f, ByAgent, e), HasKey(KeyOf(ByAgent), agent);
    KeepAndKeep(f.entries, wide, inRows, (e: Entry) => wide(e) && inRows(e));
    KeepAndKeep(f.entries, (e: Entry) => wide(e) && inRows(e), mine, (e: Entry) => Matches(f, e, Filter(scope, agent, "")));
  }

  /** Selecting a model gives, inside the run's total, the entries of that model's row. */
  lemma ModelDrillDown(f: Facts, scope: Scope, model: string)
    requires model != ""
    ensures Keep(RowEntries(f, Selected(f, Filter(scope, "", "")), ByModel), HasKey(KeyOf(ByModel), model))
      == Inside(f, Selected(f, Filter(scope, "", model)))
  {
    var wide, inRows, mine := (e: Entry) => Matches(f, e, Filter(scope, "", "")), (e: Entry) => InRows(f, ByModel, e), HasKey(KeyOf(ByModel), model);
    var narrow, inside := (e: Entry) => Matches(f, e, Filter(scope, "", model)), (e: Entry) => !OutsideTotal(f, e);
    KeepAndKeep(f.entries, wide, inRows, (e: Entry) => wide(e) && inRows(e));
    KeepAndKeep(f.entries, (e: Entry) => wide(e) && inRows(e), mine, (e: Entry) => narrow(e) && inside(e));
    KeepAndKeep(f.entries, narrow, inside, (e: Entry) => narrow(e) && inside(e));
  }

  /** Main result: a row of the breakdown shows what selecting its key shows. */
  lemma RowIsDrillDown(f: Facts, scope: Scope, group: Group, asOf: int, rows: seq<Row>, i: nat)
    requires AreRows(RowEntries(f, Selected(f, Filter(scope, "", "")), group), group, asOf, rows)
    requires i < |rows| && rows[i].key != ""
    ensures group == ByAgent ==> rows[i].sums == SumOf(Selected(f, Filter(scope, rows[i].key, "")), asOf)
    ensures group == ByModel ==> rows[i].sums == SumOf(Inside(f, Selected(f, Filter(scope, "", rows[i].key))), asOf)
  {
    if group == ByAgent {
      AgentDrillDown(f, scope, rows[i].key);
    } else {
      ModelDrillDown(f, scope, rows[i].key);
    }
  }
}
