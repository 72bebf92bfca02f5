// The revision of a journal snapshot, which identifies what the snapshot holds.
module JobRevisions {
  import opened Options
  import opened JobRecord
  import opened JobJournal
  import opened JobStore

  function Revision(img: Image): nat {
    |img.records| + |img.reasons|
  }

  predicate Extends(a: Image, b: Image) {
    && a.header == b.header && a.records <= b.records && a.reasons <= b.reasons
    && Revision(a) <= Revision(b)
    && (Revision(a) == Revision(b) ==> a.records == b.records && a.reasons == b.reasons)
  }

  lemma SubsetSize<T>(a: set<T>, b: set<T>)
    requires a <= b
    ensures |a| <= |b| && (|a| == |b| ==> a == b)
  {
    var extra := b - a;
    assert a + extra == b && a !! extra;
    assert |b| == |a| + |extra|;
    if |extra| == 0 {
      assert extra == {};
    }
  }

  lemma GrownExtends(a: Image, b: Image)
    requires a.header == b.header && a.records <= b.records && a.reasons <= b.reasons
    ensures Extends(a, b)
  {
    SubsetSize(a.reasons, b.reasons);
    if |a.records| == |b.records| {
      assert a.records == b.records;
    }
  }

  lemma PutExtends(c: Codec, d: Disk, s: Live, rec: Record, io: WriteIO)
    ensures Extends(s.image, Put(c, d, s, rec, io).1.image)
  {
    GrownExtends(s.image, Put(c, d, s, rec, io).1.image);
  }

  // The states of one open store, one for each append given to it or close of it.
  ghost predicate IsSession(c: Codec, states: seq<Live>) {
    && states != []
    && forall i {:trigger MovedAt(c, states, i)} :: 0 <= i < |states| - 1 ==> MovedAt(c, states, i)
  }

  ghost predicate MovedAt(c: Codec, states: seq<Live>, i: nat)
    requires i + 1 < |states|
  {
    Moved(c, states[i], states[i + 1])
  }

  ghost predicate Moved(c: Codec, s: Live, t: Live) {
    || t == s.(open := false, closed := true)
    || exists d: Disk, rec: Record, io: WriteIO :: t == Put(c, d, s, rec, io).1
  }

  // Over a whole session revisions never decrease, snapshots only extend, and two snapshots of one
  // revision hold the same records and the same health.
  lemma {:induction false} RevisionDeterminesContent(c: Codec, states: seq<Live>, i: nat, j: nat)
    requires IsSession(c, states) && i <= j < |states|
    ensures Extends(states[i].image, states[j].image)
    decreases j - i
  {
    if i < j {
      RevisionDeterminesContent(c, states, i, j - 1);
      var s, t := states[j - 1], states[j];
      assert MovedAt(c, states, j - 1);
      if t != s.(open := false, closed := true) {
        var d: Disk, rec: Record, io: WriteIO :| t == Put(c, d, s, rec, io).1;
        PutExtends(c, d, s, rec, io);
      }
      GrownExtends(states[i].image, states[j].image);
    }
  }
}
