/** What the totals of a run say about the two usage ledgers behind it. */
module UsageTotals {
  import opened Options
  import opened JobRecord
  import opened Usage
  import opened Analytics
  import opened AnalyticsQuery
  import opened Folding

  const CATEGORIES: nat := 7

  function Category(i: nat, t: Tokens): nat
  {
    match i
    case 0 => t.uncachedInput
    case 1 => t.cacheRead
    case 2 => t.cacheWrite5m
    case 3 => t.cacheWrite1h
    case 4 => t.cacheWriteOther
    case 5 => t.output
    case _ => t.reasoningOutput
  }

  lemma CategoriesDecide(a: Tokens, b: Tokens)
    requires forall i: nat :: i < CATEGORIES ==> Category(i, a) == Category(i, b)
    ensures a == b
  {
    assert Category(0, a) == Category(0, b) && Category(1, a) == Category(1, b) && Category(2, a) == Category(2, b);
    assert Category(3, a) == Category(3, b) && Category(4, a) == Category(4, b) && Category(5, a) == Category(5, b);
    assert Category(6, a) == Category(6, b);
  }

  lemma CategoryAdds(i: nat, a: Tokens, b: Tokens)
    ensures Category(i, AddTokens(a, b)) == Category(i, a) + Category(i, b)
  {
  }

  function RecordCategory(i: nat): UsageRecord -> int
  {
    (r: UsageRecord) => Category(i, r.tokens)
  }

  lemma {:induction false} TokensAreMeasured(i: nat, recs: seq<UsageRecord>)
    ensures Category(i, TokensOf(recs)) == Measure(RecordCategory(i), recs)
  {
    if recs != [] {
      TokensAreMeasured(i, recs[..|recs| - 1]);
      CategoryAdds(i, TokensOf(recs[..|recs| - 1]), recs[|recs| - 1].tokens);
    }
  }

  // ----- Tokens behind the entries -----

  function EntryTokens(entries: seq<Entry>): Tokens
  {
    if entries == [] then NoTokens() else AddTokens(EntryTokens(entries[..|entries| - 1]), entries[|entries| - 1].usage.tokens)
  }

  lemma {:induction false} EntriesMeasureSources(i: nat, entries: seq<Entry>, sources: seq<seq<UsageRecord>>)
    requires FoldsSources(entries, sources)
    ensures Category(i, EntryTokens(entries)) == Measure(RecordCategory(i), Flatten(sources))
  {
    if entries != [] {
      var n := |entries| - 1;
      EntriesMeasureSources(i, entries[..n], sources[..n]);
      CategoryAdds(i, EntryTokens(entries[..n]), entries[n].usage.tokens);
      TokensAreMeasured(i, sources[n]);
      MeasureAppend(RecordCategory(i), Flatten(sources[..n]), sources[n]);
      assert entries[n].usage == EntryUsageOf(sources[n]);
    }
  }

  /** With every record folded once, the tokens behind the entries are the tokens of both ledgers. */
  lemma EntriesHoldLedgers(input: Input)
    requires BeginOnce(input)
    ensures EntryTokens(Joined(input).entries) == TokensOf(All(input))
  {
    EntriesFoldSources(input);
    FoldsEveryRecordOnce(input);
    forall i: nat | i < CATEGORIES
      ensures Category(i, EntryTokens(Joined(input).entries)) == Category(i, TokensOf(All(input)))
    {
      EntriesMeasureSources(i, Joined(input).entries, Sources(input));
      MeasureUnordered(RecordCategory(i), Flatten(Sources(input)), All(input));
      TokensAreMeasured(i, All(input));
    }
    CategoriesDecide(EntryTokens(Joined(input).entries), TokensOf(All(input)));
  }

  // ----- Tokens a view shows -----

  function IsHidden(e: Entry): bool
  {
    !(e.usage.present && e.usage.metered)
  }

  /** Tokens of entries no record of which was metered: no view counts them. */
  function HiddenTokens(entries: seq<Entry>): Tokens
  {
    if entries == [] then NoTokens() else
      var front := HiddenTokens(entries[..|entries| - 1]);
      if IsHidden(entries[|entries| - 1]) then AddTokens(front, entries[|entries| - 1].usage.tokens) else front
  }

  lemma ShareTokens(e: Entry, asOf: int)
    ensures Share(e, asOf).tokens == if IsHidden(e) then NoTokens() else e.usage.tokens
  {
    var t, u := TimeShare(e, asOf), UsageShare(e);
    assert t.tokens == NoTokens();
    assert Plus(t, u).tokens == AddTokens(t.tokens, u.tokens);
    AddNone(u.tokens);
  }

  lemma AddNone(t: Tokens)
    ensures AddTokens(NoTokens(), t) == t && AddTokens(t, NoTokens()) == t
  {
  }

  lemma AddSwaps(a: Tokens, b: Tokens, c: Tokens)
    ensures AddTokens(AddTokens(a, b), c) == AddTokens(AddTokens(a, c), b)
    ensures AddTokens(a, AddTokens(b, c)) == AddTokens(AddTokens(a, b), c)
  {
  }

  lemma SumTokensPush(front: seq<Entry>, e: Entry, asOf: int)
    ensures SumOf(front + [e], asOf).tokens == if IsHidden(e) then SumOf(front, asOf).tokens else AddTokens(SumOf(front, asOf).tokens, e.usage.tokens)
  {
    SumPush(front, e, asOf);
    PlusTokens(SumOf(front, asOf), Share(e, asOf));
    ShareTokens(e, asOf);
    AddNone(SumOf(front, asOf).tokens);
  }

  lemma {:induction false} ShownAndHidden(entries: seq<Entry>, asOf: int)
    ensures AddTokens(SumOf(entries, asOf).tokens, HiddenTokens(entries)) == EntryTokens(entries)
  {
    if entries == [] {
      AddNone(NoTokens());
    } else {
      var front, e := entries[..|entries| - 1], entries[|entries| - 1];
      ShownAndHidden(front, asOf);
      assert entries == front + [e];
      SumTokensPush(front, e, asOf);
      AddSwaps(SumOf(front, asOf).tokens, e.usage.tokens, HiddenTokens(front));
      AddSwaps(SumOf(front, asOf).tokens, HiddenTokens(front), e.usage.tokens);
    }
  }

  lemma PlusTokens(a: Sums, b: Sums)
    ensures Plus(a, b).tokens == AddTokens(a.tokens, b.tokens)
  {
  }

  lemma {:induction false} HiddenExact(entries: seq<Entry>)
    ensures HiddenTokens(entries) == NoTokens() <==>
      forall i :: 0 <= i < |entries| && IsHidden(entries[i]) ==> entries[i].usage.tokens == NoTokens()
  {
    if entries != [] {
      HiddenExact(entries[..|entries| - 1]);
    }
  }

  lemma AddCancels(a: Tokens, b: Tokens)
    ensures a == AddTokens(a, b) <==> b == NoTokens()
  {
  }

  lemma PlacedKeepsUsage(jobs: seq<Record>, entries: seq<Entry>)
    ensures |Placed(jobs, entries)| == |entries|
    ensures forall i :: 0 <= i < |entries| ==> Placed(jobs, entries)[i].usage == entries[i].usage
  {
  }

  lemma {:induction false} SameUsageSameTokens(a: seq<Entry>, b: seq<Entry>)
    requires |a| == |b| && forall i :: 0 <= i < |a| ==> a[i].usage == b[i].usage
    ensures EntryTokens(a) == EntryTokens(b)
  {
    if a != [] { SameUsageSameTokens(a[..|a| - 1], b[..|b| - 1]); }
  }

  lemma ShownIsSummed(entries: seq<Entry>, asOf: int)
    ensures ShownTokens(Result(SumOf(entries, asOf))) == SumOf(entries, asOf).tokens
  {
    SumBacked(entries, asOf);
  }

  /** What is shown inside and outside the run's total adds up to what is summed. */
  lemma ShownTogether(f: Facts, asOf: int)
    ensures var inside := Result(SumOf(Keep(f.entries, e => !OutsideTotal(f, e)), asOf));
      var outside := Result(SumOf(Keep(f.entries, e => OutsideTotal(f, e)), asOf));
      AddTokens(ShownTokens(inside), ShownTokens(outside)) == SumOf(f.entries, asOf).tokens
  {
    var isIn, isOut := (e: Entry) => !OutsideTotal(f, e), (e: Entry) => OutsideTotal(f, e);
    var inside, outside := Keep(f.entries, isIn), Keep(f.entries, isOut);
    SumsLawful();
    FoldSplit(SumsMonoid(), ShareAt(asOf), f.entries, isIn, isOut);
    PlusTokens(SumOf(inside, asOf), SumOf(outside, asOf));
    ShownIsSummed(inside, asOf);
    ShownIsSummed(outside, asOf);
  }

  /** Main result: the tokens shown by the unfiltered totals and by the part outside them are exactly the tokens of both
      ledgers, unless some entry without a metered record carries tokens; then they fall short. */
  lemma TotalsConserveTokens(input: Input, asOf: int)
    requires BeginOnce(input)
    ensures var f := Built(input);
      var inside := Result(SumOf(Keep(f.entries, e => !OutsideTotal(f, e)), asOf));
      var outside := Result(SumOf(Keep(f.entries, e => OutsideTotal(f, e)), asOf));
      AddTokens(ShownTokens(inside), ShownTokens(outside)) == TokensOf(All(input)) <==>
      forall i :: 0 <= i < |f.entries| && IsHidden(f.entries[i]) ==> f.entries[i].usage.tokens == NoTokens()
  {
    var f := Built(input);
    ShownTogether(f, asOf);
    ShownAndHidden(f.entries, asOf);
    PlacedKeepsUsage(input.jobs, Joined(input).entries);
    SameUsageSameTokens(f.entries, Joined(input).entries);
    EntriesHoldLedgers(input);
    AddCancels(SumOf(f.entries, asOf).tokens, HiddenTokens(f.entries));
    HiddenExact(f.entries);
  }
}
