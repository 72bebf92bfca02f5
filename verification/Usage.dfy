/** Usage records of a run and their folding into summaries. Money is exact. */
module Usage {

  /** All categories are disjoint except reasoningOutput, which is part of output. */
  datatype Tokens = Tokens(
    uncachedInput: nat,
    cacheRead: nat,
    cacheWrite5m: nat,
    cacheWrite1h: nat,
    cacheWriteOther: nat,
    output: nat,
    reasoningOutput: nat)

  function NoTokens(): Tokens
  {
    Tokens(0, 0, 0, 0, 0, 0, 0)
  }

  function AddTokens(a: Tokens, b: Tokens): Tokens
  {
    Tokens(a.uncachedInput + b.uncachedInput, a.cacheRead + b.cacheRead, a.cacheWrite5m + b.cacheWrite5m,
           a.cacheWrite1h + b.cacheWrite1h, a.cacheWriteOther + b.cacheWriteOther, a.output + b.output,
           a.reasoningOutput + b.reasoningOutput)
  }

  const RUN_OVERHEAD := "run_overhead"

  /** time is the moment the record was written; a missing or broken stamp is 0. */
  datatype UsageRecord = UsageRecord(
    jobID: string,
    stageID: string,
    rootStageID: string,
    taskID: string,
    scope: string,
    channel: string,
    model: string,
    metered: bool,
    priced: bool,
    tokens: Tokens,
    cost: real,
    time: int)

  datatype Summary = Summary(
    tokens: Tokens,
    cost: real,
    priced: bool,
    metered: nat,
    unmetered: nat,
    unpriced: nat,
    models: seq<string>)

  function TokensOf(recs: seq<UsageRecord>): Tokens
  {
    if recs == [] then NoTokens() else AddTokens(TokensOf(recs[..|recs| - 1]), recs[|recs| - 1].tokens)
  }

  function CostOf(recs: seq<UsageRecord>): real
  {
    if recs == [] then 0.0 else CostOf(recs[..|recs| - 1]) + recs[|recs| - 1].cost
  }

  function Count(recs: seq<UsageRecord>, p: UsageRecord -> bool): nat
  {
    if recs == [] then 0 else Count(recs[..|recs| - 1], p) + if p(recs[|recs| - 1]) then 1 else 0
  }

  predicate IsMetered(r: UsageRecord)
  {
    r.metered
  }

  predicate IsUnpriced(r: UsageRecord)
  {
    r.metered && !r.priced
  }

  predicate AllPriced(recs: seq<UsageRecord>)
  {
    forall i :: 0 <= i < |recs| && recs[i].metered ==> recs[i].priced
  }

  predicate AnyPriced(recs: seq<UsageRecord>)
  {
    exists i :: 0 <= i < |recs| && recs[i].metered && recs[i].priced
  }

  /** The models named, each once. */
  function Models(recs: seq<UsageRecord>): seq<string>
  {
    if recs == [] then [] else
      var front, model := Models(recs[..|recs| - 1]), recs[|recs| - 1].model;
      if model != "" && model !in front then front + [model] else front
  }

  /** Where a model is first named, or the number of records if it never is. */
  function FirstMention(recs: seq<UsageRecord>, m: string): (i: nat)
    ensures i <= |recs| && (i < |recs| ==> recs[i].model == m)
    ensures forall k :: 0 <= k < i ==> recs[k].model != m
  {
    if recs == [] || recs[0].model == m then 0 else 1 + FirstMention(recs[1..], m)
  }

  lemma MentionStep(recs: seq<UsageRecord>, m: string)
    requires recs != []
    ensures var front, n := recs[..|recs| - 1], |recs| - 1;
      FirstMention(recs, m) ==
        if FirstMention(front, m) < n then FirstMention(front, m) else if recs[n].model == m then n else |recs|
  {
    var front, n := recs[..|recs| - 1], |recs| - 1;
    var i, j := FirstMention(recs, m), FirstMention(front, m);
    assert forall k :: 0 <= k < n ==> front[k].model == recs[k].model;
    assert j < n ==> recs[j].model == m;
    assert i < n ==> front[i].model == m;
  }

  /** Every model named is listed once, in the order of first mention. */
  lemma {:induction false} ModelsExact(recs: seq<UsageRecord>)
    ensures forall m :: m in Models(recs) <==> m != "" && FirstMention(recs, m) < |recs|
    ensures forall a, b :: 0 <= a < b < |Models(recs)| ==> FirstMention(recs, Models(recs)[a]) < FirstMention(recs, Models(recs)[b])
  {
    if recs != [] {
      var front, n := recs[..|recs| - 1], |recs| - 1;
      ModelsExact(front);
      forall m ensures m in Models(recs) <==> m != "" && FirstMention(recs, m) < |recs| {
        MentionStep(recs, m);
      }
      forall a, b | 0 <= a < b < |Models(recs)|
        ensures FirstMention(recs, Models(recs)[a]) < FirstMention(recs, Models(recs)[b])
      {
        MentionStep(recs, Models(recs)[a]);
        MentionStep(recs, Models(recs)[b]);
        assert Models(front)[a] in Models(front);
      }
    }
  }

  /** One more record. */
  lemma FoldStep(recs: seq<UsageRecord>, i: nat)
    requires i < |recs|
    ensures TokensOf(recs[..i + 1]) == AddTokens(TokensOf(recs[..i]), recs[i].tokens)
    ensures CostOf(recs[..i + 1]) == CostOf(recs[..i]) + recs[i].cost
    ensures Models(recs[..i + 1]) ==
      Models(recs[..i]) + if recs[i].model != "" && recs[i].model !in Models(recs[..i]) then [recs[i].model] else []
    ensures Count(recs[..i + 1], IsMetered) == Count(recs[..i], IsMetered) + if recs[i].metered then 1 else 0
    ensures Count(recs[..i + 1], IsUnpriced) == Count(recs[..i], IsUnpriced) + if recs[i].metered && !recs[i].priced then 1 else 0
    ensures AnyMetered(recs[..i + 1]) <==> AnyMetered(recs[..i]) || recs[i].metered
    ensures AnyPriced(recs[..i + 1]) <==> AnyPriced(recs[..i]) || (recs[i].metered && recs[i].priced)
    ensures AllPriced(recs[..i + 1]) <==> AllPriced(recs[..i]) && (recs[i].metered ==> recs[i].priced)
  {
    var front, more := recs[..i], recs[..i + 1];
    assert more[..i] == front && more == front + [recs[i]];
  }

  /** Folds records into a summary. A group is priced only when it holds a metered record and every metered record
      in it has a price. */
  method Summarize(recs: seq<UsageRecord>) returns (s: Summary)
    ensures s.tokens == TokensOf(recs) && s.cost == CostOf(recs)
    ensures s.metered == Count(recs, IsMetered) && s.metered + s.unmetered == |recs|
    ensures s.unpriced == Count(recs, IsUnpriced)
    ensures s.priced <==> AnyMetered(recs) && AllPriced(recs)
    ensures s.metered > 0 <==> AnyMetered(recs)
    ensures EntryUsage(true, s.metered > 0, s.priced, s.tokens, s.cost) == Folded(recs)
    ensures s.models == Models(recs)
  {
    var seen: set<string>, hasPriced, allMeteredPriced := {}, false, true;
    s := Summary(NoTokens(), 0.0, false, 0, 0, 0, []);
    for i := 0 to |recs|
      invariant s.tokens == TokensOf(recs[..i]) && s.cost == CostOf(recs[..i])
      invariant s.metered == Count(recs[..i], IsMetered) && s.metered + s.unmetered == i
      invariant s.unpriced == Count(recs[..i], IsUnpriced)
      invariant s.models == Models(recs[..i]) && forall m :: m in seen <==> m in s.models
      invariant s.metered > 0 <==> AnyMetered(recs[..i])
      invariant hasPriced <==> AnyPriced(recs[..i])
      invariant allMeteredPriced <==> AllPriced(recs[..i])
    {
      var rec := recs[i];
      FoldStep(recs, i);
      s := s.(tokens := AddTokens(s.tokens, rec.tokens), cost := s.cost + rec.cost);
      if rec.model != "" && rec.model !in seen {
        seen := seen + {rec.model};
        s := s.(models := s.models + [rec.model]);
      }
      if !rec.metered {
        s := s.(unmetered := s.unmetered + 1);
        continue;
      }
      s := s.(metered := s.metered + 1);
      if rec.priced {
        hasPriced := true;
      } else {
        s := s.(unpriced := s.unpriced + 1);
        allMeteredPriced := false;
      }
    }
    assert recs[..|recs|] == recs;
    s := s.(priced := hasPriced && allMeteredPriced);
  }

  /** The usage side of an entry; several records of one job are folded. */
  datatype EntryUsage = EntryUsage(present: bool, metered: bool, priced: bool, tokens: Tokens, cost: real)

  function NoUsage(): EntryUsage
  {
    EntryUsage(false, false, false, NoTokens(), 0.0)
  }

  predicate AnyMetered(recs: seq<UsageRecord>)
  {
    exists i :: 0 <= i < |recs| && recs[i].metered
  }

  function Folded(recs: seq<UsageRecord>): EntryUsage
  {
    EntryUsage(true, AnyMetered(recs),
               AnyMetered(recs) && AllPriced(recs),
               TokensOf(recs), CostOf(recs))
  }

  // ----- Additive measures -----

  /** Any quantity that adds up over records. */
  function Measure(f: UsageRecord -> int, recs: seq<UsageRecord>): int
  {
    if recs == [] then 0 else Measure(f, recs[..|recs| - 1]) + f(recs[|recs| - 1])
  }

  lemma {:induction false} MeasureAppend(f: UsageRecord -> int, a: seq<UsageRecord>, b: seq<UsageRecord>)
    ensures Measure(f, a + b) == Measure(f, a) + Measure(f, b)
  {
    if b == [] {
      assert a + b == a;
    } else {
      assert (a + b)[..|a + b| - 1] == a + b[..|b| - 1];
      MeasureAppend(f, a, b[..|b| - 1]);
    }
  }

  lemma {:induction false} MeasurePush(f: UsageRecord -> int, a: seq<UsageRecord>, r: UsageRecord)
    ensures Measure(f, a + [r]) == Measure(f, a) + f(r)
  {
    assert (a + [r])[..|a|] == a;
  }

  lemma MeasureMiddle(f: UsageRecord -> int, a: seq<UsageRecord>, r: UsageRecord, c: seq<UsageRecord>)
    ensures Measure(f, (a + [r]) + c) == Measure(f, a + c) + f(r)
  {
    MeasureAppend(f, a + [r], c);
    MeasurePush(f, a, r);
    MeasureAppend(f, a, c);
  }

  function Rest(b: seq<UsageRecord>, i: nat): seq<UsageRecord>
    requires i < |b|
  {
    b[..i] + b[i + 1..]
  }

  lemma SplitAt(b: seq<UsageRecord>, i: nat)
    requires i < |b|
    ensures b == (b[..i] + [b[i]]) + b[i + 1..]
  {
  }

  lemma MeasureRest(f: UsageRecord -> int, b: seq<UsageRecord>, i: nat)
    requires i < |b|
    ensures Measure(f, b) == Measure(f, Rest(b, i)) + f(b[i])
  {
    SplitAt(b, i);
    MeasureMiddle(f, b[..i], b[i], b[i + 1..]);
  }

  lemma RestMembers(b: seq<UsageRecord>, i: nat)
    requires i < |b|
    ensures multiset(Rest(b, i)) == multiset(b) - multiset{b[i]}
  {
    SplitAt(b, i);
    assert multiset(b) == multiset(b[..i]) + multiset{b[i]} + multiset(b[i + 1..]);
  }

  /** A measure depends on which records there are, not on their order. */
  lemma {:induction false} MeasureUnordered(f: UsageRecord -> int, a: seq<UsageRecord>, b: seq<UsageRecord>)
    requires multiset(a) == multiset(b)
    ensures Measure(f, a) == Measure(f, b)
    decreases |a|
  {
    if a == [] {
      assert |multiset(b)| == 0;
    } else {
      assert a[0] in multiset(b);
      var i :| 0 <= i < |b| && b[i] == a[0];
      RestMembers(a, 0);
      RestMembers(b, i);
      MeasureRest(f, a, 0);
      MeasureRest(f, b, i);
      MeasureUnordered(f, Rest(a, 0), Rest(b, i));
    }
  }
}
