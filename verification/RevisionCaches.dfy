// Caches keyed by revisions: what they return is what rebuilding from the inputs at those
// revisions gives, whoever appends meanwhile.
module RevisionCaches {
  import opened Options
  import opened Usage
  import JobRecord
  import JobStore
  import JobRevisions

  // ---------------------------------------------------------------------
  // The usage store and its cost snapshot
  // ---------------------------------------------------------------------

  datatype Ledger = Ledger(recs: seq<UsageRecord>, unavailable: bool)

  // The only changes that count: one more record while the store is usable, or the end of its use.
  predicate Changed(a: Ledger, b: Ledger) {
    !a.unavailable && (if b.unavailable then b.recs == a.recs else a.recs <= b.recs && |b.recs| == |a.recs| + 1)
  }

  ghost predicate History(past: seq<Ledger>) {
    forall i {:trigger ChangedAt(past, i)} :: 0 <= i < |past| - 1 ==> ChangedAt(past, i)
  }

  predicate ChangedAt(past: seq<Ledger>, i: nat)
    requires i + 1 < |past|
  {
    Changed(past[i], past[i + 1])
  }

  lemma HistoryGrows(past: seq<Ledger>, next: Ledger)
    requires past != [] && History(past) && Changed(past[|past| - 1], next)
    ensures History(past + [next])
  {
    forall i | 0 <= i < |past| ensures ChangedAt(past + [next], i) {
      assert i < |past| - 1 ==> ChangedAt(past, i);
    }
  }

  // A later revision has more records or has become unavailable; so revisions tell contents apart.
  lemma {:induction false} LaterRevision(past: seq<Ledger>, i: nat, j: nat)
    requires History(past) && i < j < |past|
    ensures past[i].recs <= past[j].recs && !past[i].unavailable && past[i] != past[j]
    ensures |past[j].recs| + (if past[j].unavailable then 1 else 0) == |past[i].recs| + j - i
    decreases j - i
  {
    assert ChangedAt(past, j - 1);
    if i < j - 1 {
      LaterRevision(past, i, j - 1);
    }
  }

  class UsageStore<B(0)> {
    const build: (seq<UsageRecord>, bool) -> B
    var recs: seq<UsageRecord>
    var unavailable: bool
    var revision: nat
    var cachedBundle: Option<B>
    var cachedRevision: nat
    // The content at every revision so far.
    var past: seq<Ledger>

    function BuiltAt(rev: nat): B
      requires rev < |past|
      reads this
    {
      build(past[rev].recs, past[rev].unavailable)
    }

    ghost predicate Valid()
      reads this
    {
      && |past| == revision + 1
      && past[revision] == Ledger(recs, unavailable)
      && History(past)
      && (cachedBundle.Some? ==> cachedRevision <= revision && cachedBundle.value == BuiltAt(cachedRevision))
    }

    constructor (build: (seq<UsageRecord>, bool) -> B, loaded: seq<UsageRecord>, corrupt: bool)
      ensures Valid() && revision == 0 && past == [Ledger(loaded, corrupt)] && this.build == build
    {
      this.build := build;
      recs, unavailable, revision := loaded, corrupt, 0;
      cachedBundle, cachedRevision := None, 0;
      past := [Ledger(loaded, corrupt)];
    }

    method MarkUnavailable()
      requires Valid() && !unavailable
      modifies this
      ensures Valid() && past == old(past) + [Ledger(old(recs), true)]
      ensures cachedBundle == old(cachedBundle) && cachedRevision == old(cachedRevision)
    {
      unavailable := true;
      revision := revision + 1;
      HistoryGrows(past, Ledger(recs, true));
      past := past + [Ledger(recs, true)];
    }

    // A record counts only once it is encoded, written and synced; the first failure ends the store.
    method AppendRecord(rec: UsageRecord, encodes: bool, writes: bool, syncs: bool) returns (ok: bool)
      requires Valid()
      modifies this
      ensures Valid()
      ensures ok == (!old(unavailable) && encodes && writes && syncs)
      ensures past == old(past) + (if old(unavailable) then []
                                   else if ok then [Ledger(old(recs) + [rec], false)]
                                   else [Ledger(old(recs), true)])
      ensures cachedBundle == old(cachedBundle) && cachedRevision == old(cachedRevision)
    {
      if unavailable {
        return false;
      }
      if !encodes || !writes || !syncs {
        MarkUnavailable();
        return false;
      }
      recs := recs + [rec];
      revision := revision + 1;
      HistoryGrows(past, Ledger(recs, false));
      past := past + [Ledger(recs, false)];
      ok := true;
    }

    // The first section of a snapshot: the cached bundle, or a copy to build from.
    method Copy() returns (hit: Option<B>, copied: seq<UsageRecord>, failed: bool, rev: nat)
      requires Valid()
      ensures rev == revision && copied == recs && failed == unavailable
      ensures hit.Some? ==> hit.value == BuiltAt(revision)
    {
      hit := if cachedBundle.Some? && cachedRevision == revision then cachedBundle else None;
      copied, failed, rev := recs, unavailable, revision;
    }

    // The second section: the built bundle is kept only while nothing changed.
    method Publish(built: B, rev: nat)
      requires Valid() && rev < |past| && built == BuiltAt(rev)
      modifies this
      ensures Valid() && past == old(past) && revision == old(revision)
      ensures cachedBundle == if rev == revision then Some(built) else old(cachedBundle)
      ensures old(cachedBundle).Some? ==> cachedRevision >= old(cachedRevision)
    {
      if rev == revision {
        cachedBundle := Some(built);
        cachedRevision := rev;
      }
    }

    // What other goroutines may do between two sections: append, fail, or publish what they built.
    method Others()
      requires Valid()
      modifies this
      ensures Valid() && old(past) <= past
      ensures old(cachedBundle).Some? ==> cachedBundle.Some? && cachedRevision >= old(cachedRevision)
    {
      var rounds: int := *;
      while rounds > 0
        invariant Valid() && old(past) <= past
        invariant old(cachedBundle).Some? ==> cachedBundle.Some? && cachedRevision >= old(cachedRevision)
      {
        rounds := rounds - 1;
        var appends: bool, rec: UsageRecord, encodes: bool, writes: bool, syncs: bool, rev: int := *, *, *, *, *, *;
        if appends {
          var _ := AppendRecord(rec, encodes, writes, syncs);
        } else if 0 <= rev < |past| {
          Publish(BuiltAt(rev), rev);
        }
      }
    }

    // Whatever happens meanwhile, the result is what building from the content of one revision
    // gives, and that revision was current at some time during the call.
    method CostSnapshot() returns (b: B, ghost rev: nat)
      requires Valid()
      modifies this
      ensures Valid() && old(past) <= past
      ensures old(revision) <= rev <= revision && b == BuiltAt(rev)
      ensures revision == old(revision) ==> b == build(recs, unavailable)
    {
      Others();
      var hit, copied, failed, at := Copy();
      rev := at;
      if hit.Some? {
        return hit.value, rev;
      }
      ghost var before := past;
      Others();
      assert past[at] == before[at];
      var built := build(copied, failed);
      Publish(built, at);
      b := built;
    }
  }

  // ---------------------------------------------------------------------
  // The facts of an analytics view over several sources
  // ---------------------------------------------------------------------

  // The content at the current revision is recorded, and no later revision is.
  ghost predicate Current<C>(rev: nat, content: C, past: map<nat, C>) {
    rev in past && past[rev] == content && forall k :: k in past ==> k <= rev
  }

  // A source whose revision grows with every change of its content.
  class Source<C(0)> {
    var content: C
    var rev: nat
    var past: map<nat, C>

    ghost predicate Valid()
      reads this
    {
      Current(rev, content, past)
    }

    constructor (content: C, rev: nat)
      ensures Valid() && this.content == content && this.rev == rev && past == map[rev := content]
    {
      this.content, this.rev := content, rev;
      past := map[rev := content];
    }

    method Change(next: C, step: nat)
      requires Valid()
      modifies this
      ensures Valid() && rev > old(rev) && content == next && Grown(old(past), past)
    {
      content := next;
      rev := rev + step + 1;
      past := past[rev := next];
    }

    method Drift()
      requires Valid()
      modifies this
      ensures Valid() && rev >= old(rev) && Grown(old(past), past)
    {
      var rounds: int := *;
      while rounds > 0
        invariant Valid() && rev >= old(rev) && Grown(old(past), past)
      {
        rounds := rounds - 1;
        var next: C, step: int := *, *;
        if step >= 0 {
          Change(next, step);
        }
      }
    }
  }

  ghost predicate Grown<C>(a: map<nat, C>, b: map<nat, C>) {
    forall k :: k in a ==> k in b && b[k] == a[k]
  }

  // ---------------------------------------------------------------------
  // The stores as sources
  // ---------------------------------------------------------------------

  datatype Reading<C> = Reading(rev: nat, content: C)

  // Successive readings of a store: its revision never falls, and one revision has one content.
  ghost predicate Disciplined<C>(t: seq<Reading<C>>) {
    forall i, j :: 0 <= i <= j < |t| ==> t[i].rev <= t[j].rev && (t[i].rev == t[j].rev ==> t[i].content == t[j].content)
  }

  // What a source has recorded when it went through these readings.
  function PastOf<C>(t: seq<Reading<C>>): map<nat, C> {
    if t == [] then map[] else PastOf(t[..|t| - 1])[t[|t| - 1].rev := t[|t| - 1].content]
  }

  // After the first n readings a source that goes through them is valid, and it has forgotten nothing.
  ghost predicate KeptUpTo<C>(t: seq<Reading<C>>, n: nat)
    requires 0 < n <= |t|
  {
    && Current(t[n - 1].rev, t[n - 1].content, PastOf(t[..n]))
    && Grown(PastOf(t[..n - 1]), PastOf(t[..n]))
  }

  lemma PastStep<C>(t: seq<Reading<C>>, n: nat)
    requires 0 < n <= |t|
    ensures PastOf(t[..n]) == PastOf(t[..n - 1])[t[n - 1].rev := t[n - 1].content]
  {
    assert t[..n][..n - 1] == t[..n - 1];
  }

  lemma {:induction false} PastFrom<C>(t: seq<Reading<C>>, n: nat, k: nat)
    requires n <= |t| && k in PastOf(t[..n])
    ensures exists i :: 0 <= i < n && t[i].rev == k && t[i].content == PastOf(t[..n])[k]
  {
    if n > 0 {
      PastStep(t, n);
      if k != t[n - 1].rev {
        PastFrom(t, n - 1, k);
      }
    }
  }

  lemma {:induction false} PastGrows<C>(t: seq<Reading<C>>, i: nat, j: nat)
    requires i <= j <= |t| && forall n {:trigger KeptUpTo(t, n)} :: 0 < n <= |t| ==> KeptUpTo(t, n)
    ensures Grown(PastOf(t[..i]), PastOf(t[..j]))
    decreases j - i
  {
    if i < j {
      PastGrows(t, i, j - 1);
      assert KeptUpTo(t, j);
    }
  }

  // A source can go through a store's readings exactly when they are disciplined.
  lemma DisciplinedExact<C>(t: seq<Reading<C>>)
    ensures Disciplined(t) <==> forall n {:trigger KeptUpTo(t, n)} :: 0 < n <= |t| ==> KeptUpTo(t, n)
  {
    if Disciplined(t) {
      forall n | 0 < n <= |t| ensures KeptUpTo(t, n) {
        PastStep(t, n);
        forall k | k in PastOf(t[..n - 1])
          ensures k <= t[n - 1].rev && PastOf(t[..n])[k] == PastOf(t[..n - 1])[k]
        {
          PastFrom(t, n - 1, k);
        }
      }
    }
    if forall n {:trigger KeptUpTo(t, n)} :: 0 < n <= |t| ==> KeptUpTo(t, n) {
      forall i, j | 0 <= i <= j < |t|
        ensures t[i].rev <= t[j].rev && (t[i].rev == t[j].rev ==> t[i].content == t[j].content)
      {
        assert KeptUpTo(t, i + 1) && KeptUpTo(t, j + 1);
        PastGrows(t, i + 1, j + 1);
      }
    }
  }

  function UsageReadings(past: seq<Ledger>): seq<Reading<Ledger>> {
    seq(|past|, i requires 0 <= i < |past| => Reading(i, past[i]))
  }

  // The usage store is such a source, and no two of its revisions have one content.
  lemma UsageIsSource(past: seq<Ledger>)
    requires History(past)
    ensures Disciplined(UsageReadings(past))
    ensures forall i, j :: 0 <= i < j < |past| ==> past[i] != past[j]
  {
    forall i, j | 0 <= i < j < |past| ensures past[i] != past[j] {
      LaterRevision(past, i, j);
    }
  }

  // What a journal snapshot shows: the header, the records and the health.
  datatype Jobs = Jobs(header: Option<JobRecord.HeaderLine>, records: seq<JobRecord.Record>, reasons: set<string>)

  function JobReadings(states: seq<JobStore.Live>): seq<Reading<Jobs>> {
    seq(|states|, i requires 0 <= i < |states| =>
      Reading(JobRevisions.Revision(states[i].image), Jobs(states[i].image.header, states[i].image.records, states[i].image.reasons)))
  }

  // An open job store is such a source: its snapshots of one revision show the same.
  lemma JobsAreSource(c: JobRecord.Codec, states: seq<JobStore.Live>)
    requires JobRevisions.IsSession(c, states)
    ensures Disciplined(JobReadings(states))
  {
    forall i, j | 0 <= i <= j < |states|
      ensures JobReadings(states)[i].rev <= JobReadings(states)[j].rev
      ensures JobReadings(states)[i].rev == JobReadings(states)[j].rev ==> JobReadings(states)[i].content == JobReadings(states)[j].content
    {
      JobRevisions.RevisionDeterminesContent(c, states, i, j);
    }
  }

  // The sources in the order they are read: the run's jobs, the Assistant's jobs, the metadata,
  // the run's usage, the Assistant's usage.
  const SOURCES: nat := 5
  const FIRST_USAGE: nat := 3

  class Analytics<C(0), F(0)> {
    const src: seq<Source<C>>
    const build: seq<C> -> F
    var cached: Option<F>
    var key: seq<nat>

    predicate Recorded(revs: seq<nat>)
      reads this, src
    {
      |src| == SOURCES && |revs| == SOURCES && forall i :: 0 <= i < SOURCES ==> revs[i] in src[i].past
    }

    function At(revs: seq<nat>): seq<C>
      requires Recorded(revs)
      reads this, src
    {
      [src[0].past[revs[0]], src[1].past[revs[1]], src[2].past[revs[2]], src[3].past[revs[3]], src[4].past[revs[4]]]
    }

    ghost predicate Valid()
      reads this, src
    {
      && |src| == SOURCES
      && (forall i :: 0 <= i < SOURCES ==> src[i].Valid())
      && (cached.Some? ==> Recorded(key) && cached.value == build(At(key)))
    }

    // Every source as it was or later.
    twostate predicate Moved()
      reads this, src
    {
      forall i :: 0 <= i < |src| ==> Grown(old(src[i].past), src[i].past) && src[i].rev >= old(src[i].rev)
    }

    constructor (src: seq<Source<C>>, build: seq<C> -> F)
      requires |src| == SOURCES && forall i :: 0 <= i < SOURCES ==> src[i].Valid()
      ensures Valid() && this.src == src && this.build == build && cached == None
    {
      this.src, this.build := src, build;
      cached, key := None, [];
    }

    // Appends to any source, at any time.
    method Appends()
      requires Valid()
      modifies src
      ensures Valid() && Moved()
    {
      for i := 0 to |src|
        invariant Moved()
        invariant forall k :: 0 <= k < |src| ==> src[k].Valid()
      {
        src[i].Drift();
      }
    }

    // Another caller stores the facts it built from revisions it read.
    method OtherCallers()
      requires Valid()
      modifies this
      ensures Valid()
    {
      var revs: seq<nat> := *;
      if Recorded(revs) {
        cached := Some(build(At(revs)));
        key := revs;
      }
    }

    method Meanwhile()
      requires Valid()
      modifies this, src
      ensures Valid() && Moved()
    {
      Appends();
      OtherCallers();
    }

    // The revisions and contents of the sources, read one after the other.
    method Gather() returns (contents: seq<C>, revs: seq<nat>)
      requires Valid()
      modifies this, src
      ensures Valid() && Moved()
      ensures Recorded(revs) && contents == At(revs)
      ensures forall i :: 0 <= i < SOURCES ==> old(src[i].rev) <= revs[i] <= src[i].rev
    {
      contents, revs := [], [];
      for i := 0 to SOURCES
        invariant Valid() && Moved()
        invariant |contents| == |revs| == i
        invariant forall k :: 0 <= k < i ==> revs[k] in src[k].past && contents[k] == src[k].past[revs[k]]
        invariant forall k :: 0 <= k < i ==> old(src[k].rev) <= revs[k] <= src[k].rev
      {
        Meanwhile();
        contents, revs := contents + [src[i].content], revs + [src[i].rev];
      }
    }

    // The usage sources are read once more before facts are built; the lock keeps other callers out.
    method Reread(contents: seq<C>, revs: seq<nat>) returns (again: seq<C>, newer: seq<nat>)
      requires Valid() && Recorded(revs) && contents == At(revs)
      requires forall i :: 0 <= i < SOURCES ==> revs[i] <= src[i].rev
      modifies src
      ensures Valid() && Moved()
      ensures Recorded(newer) && again == At(newer)
      ensures forall i :: 0 <= i < SOURCES ==> revs[i] <= newer[i] <= src[i].rev
    {
      again, newer := contents, revs;
      for i := FIRST_USAGE to SOURCES
        invariant Valid() && Moved()
        invariant Recorded(newer) && again == At(newer)
        invariant forall k :: 0 <= k < SOURCES ==> revs[k] <= newer[k] <= src[k].rev
      {
        Appends();
        again, newer := again[i := src[i].content], newer[i := src[i].rev];
      }
    }

    // The facts are those of the contents at revisions that were current during the call; with no
    // change meanwhile, those of the current contents.
    method Facts() returns (f: F, ghost at: seq<nat>)
      requires Valid()
      modifies this, src
      ensures Valid() && Moved()
      ensures Recorded(at) && f == build(At(at))
      ensures forall i :: 0 <= i < SOURCES ==> old(src[i].rev) <= at[i] <= src[i].rev
    {
      var contents, revs := Gather();
      Meanwhile();
      f, at := Locked(contents, revs);
    }

    // The section under the lock.
    method Locked(contents: seq<C>, revs: seq<nat>) returns (f: F, ghost at: seq<nat>)
      requires Valid() && Recorded(revs) && contents == At(revs)
      requires forall i :: 0 <= i < SOURCES ==> revs[i] <= src[i].rev
      modifies this, src
      ensures Valid() && Moved()
      ensures Recorded(at) && f == build(At(at))
      ensures forall i :: 0 <= i < SOURCES ==> revs[i] <= at[i] <= src[i].rev
    {
      if cached.Some? && key == revs {
        return cached.value, revs;
      }
      var again, newer := Reread(contents, revs);
      f := build(again);
      cached := Some(f);
      key := newer;
      at := newer;
    }
  }
}
