/** What the journal holds, told by what its callers gave it: every record is one given to Append, kept as it was but for
    the bounds of its texts, and what an Append answers is decided by the records already there. */
module JobContents {
  import opened Options
  import opened Framing
  import opened JobRecord
  import opened JobJournal
  import opened JobStore

  // ----- One append -----

  /** The caller's record may be kept at all; a reason too long is judged by what is left of it. */
  ghost predicate Proper(rec: Record)
  {
    && rec.jobID != "" && rec.at.instant != 0
    && (rec.kind == Started
        || (rec.kind == Finished && rec.durationMS >= 0
            && rec.outcome in {"ok", "error", "interrupted", "idle_timeout", "usage_limit", "cancelled", "yielded"})
        || (rec.kind == StartFailed && exists part :: CutAtRune(part, rec.reason, 64) && part != []))
  }

  ghost predicate Encodes(c: Codec, rec: Record)
  {
    exists q :: KeptAs(rec, q) && c.encode(q).Some?
  }

  ghost predicate Holds(records: seq<Record>, rec: Record)
  {
    exists q :: q in records && KeptAs(rec, q)
  }

  /** A record of the same job that the given one cannot stand beside. */
  predicate Excludes(q: Record, rec: Record)
  {
    q.jobID == rec.jobID
    && (q.kind == rec.kind || (q.kind == Started && rec.kind == StartFailed) || (q.kind == StartFailed && rec.kind == Started))
  }

  lemma ProperExact(rec: Record)
    ensures Proper(rec) <==> Acceptable(Normalized(rec))
  {
    var part := ClippedBytes(rec.reason, 64);
    ClippedExact(rec.reason, 64, part);
    forall p | CutAtRune(p, rec.reason, 64)
      ensures p == part
    {
      ClippedExact(rec.reason, 64, p);
    }
  }

  lemma EncodesExact(c: Codec, rec: Record)
    ensures Encodes(c, rec) <==> c.encode(Normalized(rec)).Some?
  {
    KeptAsExact(rec, Normalized(rec));
    forall q | KeptAs(rec, q)
      ensures q == Normalized(rec)
    {
      KeptAsExact(rec, q);
    }
  }

  lemma HoldsExact(records: seq<Record>, rec: Record)
    ensures Holds(records, rec) <==> Normalized(rec) in records
  {
    KeptAsExact(rec, Normalized(rec));
    forall q | KeptAs(rec, q)
      ensures q == Normalized(rec)
    {
      KeptAsExact(rec, q);
    }
  }

  lemma RecordStored(c: Codec, img: Image, q: Record)
    requires Sound(c, img) && q in img.records
    ensures Stored(c, img, q)
  {
    var i :| 0 <= i < |img.records| && img.records[i] == q;
    assert Stored(c, img, img.records[i]);
  }

  lemma RepeatExact(c: Codec, img: Image, rec: Record)
    requires Faithful(c) && Sound(c, img) && c.encode(Normalized(rec)).Some? && Acceptable(Normalized(rec))
    ensures Classify(img.facts, Normalized(rec), c.encode(Normalized(rec)).value) == Repeat <==> Holds(img.records, rec)
  {
    var r := Normalized(rec);
    NormalizedIdempotent(rec);
    HoldsExact(img.records, rec);
    if r in img.records {
      RecordStored(c, img, r);
    }
    if FactOf(r) in img.facts && img.facts[FactOf(r)] == c.encode(r).value {
      FactStored(c, img, r);
    }
  }

  lemma ConflictFound(c: Codec, img: Image, rec: Record, f: Fact)
    requires Sound(c, img) && f in img.facts
    requires f == FactOf(rec) || (f == Fact(Opposite(rec.kind), rec.jobID) && rec.kind in {Started, StartFailed})
    ensures exists q :: q in img.records && Excludes(q, rec)
  {
    assert HasRecord(img.records, f);
    var i :| 0 <= i < |img.records| && FactOf(img.records[i]) == f;
    assert Excludes(img.records[i], rec);
  }

  lemma NewExact(c: Codec, img: Image, rec: Record)
    requires Sound(c, img) && c.encode(Normalized(rec)).Some? && Acceptable(Normalized(rec))
    ensures Classify(img.facts, Normalized(rec), c.encode(Normalized(rec)).value) == New
      <==> forall q :: q in img.records ==> !Excludes(q, rec)
  {
    var r := Normalized(rec);
    if Classify(img.facts, r, c.encode(r).value) == New {
      forall i | 0 <= i < |img.records|
        ensures !Excludes(img.records[i], rec)
      {
        NewIsFresh(c, img, r, c.encode(r).value, i);
      }
    } else {
      ConflictFound(c, img, rec, if FactOf(r) in img.facts then FactOf(r) else Fact(Opposite(r.kind), r.jobID));
    }
  }

  /** Main result: the answer to an Append, and the records after it, told by the record as the caller gave it. */
  lemma AppendExact(c: Codec, d: Disk, s: Live, rec: Record, io: WriteIO)
    requires Faithful(c) && Ready(c, d, s)
    ensures var (after, t, outcome) := Put(c, d, s, rec, io);
      && (outcome == Invalid <==> !Proper(rec) || !Encodes(c, rec))
      && (outcome == AfterClose <==> Proper(rec) && Encodes(c, rec) && s.closed)
      && (outcome == Unavailable <==> Proper(rec) && Encodes(c, rec) && !s.closed && !s.open)
      && (s.open && Proper(rec) && Encodes(c, rec) ==>
            && (outcome == Repeated <==> Holds(s.image.records, rec))
            && (outcome == Conflicting <==>
                  !Holds(s.image.records, rec) && exists q :: q in s.image.records && Excludes(q, rec))
            && (outcome == Accepted <==> io == Written && forall q :: q in s.image.records ==> !Excludes(q, rec)))
      && (outcome == Accepted ==> exists q :: KeptAs(rec, q) && t.image.records == s.image.records + [q])
      && (outcome != Accepted ==> t.image.records == s.image.records)
  {
    ProperExact(rec);
    EncodesExact(c, rec);
    KeptAsExact(rec, Normalized(rec));
    if s.open && Proper(rec) && Encodes(c, rec) {
      ScanSound(c, Cut(d.bytes, NEWLINE).pieces);
      SameSound(c, ScanFile(c, d.bytes).image, s.image);
      RepeatExact(c, s.image, rec);
      NewExact(c, s.image, rec);
    }
  }

  lemma SameSound(c: Codec, a: Image, b: Image)
    requires Sound(c, a) && SameFacts(a, b)
    ensures Sound(c, b)
  {
    forall i | 0 <= i < |b.records|
      ensures Stored(c, b, b.records[i])
    {
      assert Stored(c, a, a.records[i]);
    }
  }

  // ----- Whole runs -----

  /** Some Append of the run was given a record that is kept as this. */
  ghost predicate Given(es: seq<Event>, q: Record)
  {
    exists i :: 0 <= i < |es| && es[i].Append? && KeptAs(es[i].rec, q)
  }

  lemma {:induction false} TriedWasGiven(c: Codec, es: seq<Event>, q: Record)
    requires q in Run(c, es).tried
    ensures Given(es, q)
  {
    var n := |es| - 1;
    var front := es[..n];
    if q in Run(c, front).tried {
      TriedWasGiven(c, front, q);
      var i :| 0 <= i < |front| && front[i].Append? && KeptAs(front[i].rec, q);
      assert es[i] == front[i];
    } else {
      KeptAsExact(es[n].rec, q);
      assert es[n].Append?;
    }
  }

  /** Main result: in every run, with any failures, crashes and power losses, each record of the file is one that was
      given to Append, with every field of it. */
  lemma FileWasGiven(c: Codec, es: seq<Event>, q: Record)
    requires Faithful(c) && q in RecordsOf(c, Run(c, es).disk.bytes)
    ensures Given(es, q)
  {
    RunDurable(c, es);
    TriedWasGiven(c, es, q);
  }

  /** An accepted fact is the last record of the file, with every field of it, and counts as acknowledged. */
  lemma AcceptedIsLast(c: Codec, es: seq<Event>, rec: Record, io: WriteIO)
    requires Faithful(c) && Run(c, es).live.Some?
    requires Put(c, Run(c, es).disk, Run(c, es).live.value, rec, io).2 == Accepted
    ensures var before, after := Run(c, es), Run(c, es + [Append(rec, io)]);
      exists q :: KeptAs(rec, q) && q in after.acked && RecordsOf(c, after.disk.bytes) == RecordsOf(c, before.disk.bytes) + [q]
  {
    RunDurable(c, es);
    RunAppend(c, es, Append(rec, io));
    var w, r := Run(c, es), Normalized(rec);
    NormalizedIdempotent(rec);
    KeptAsExact(rec, r);
    WrittenRecords(c, w.disk.bytes, r);
  }

  // ----- The header -----

  function HeaderOf(c: Codec, data: seq<Byte>): Option<HeaderLine>
  {
    ScanFile(c, data).image.header
  }

  /** Some Start of the run was given what the header says. */
  ghost predicate GivenHeader(es: seq<Event>, h: HeaderLine)
  {
    exists i :: 0 <= i < |es| && es[i].Start? && SameInstant(h.recordingStartedAt, es[i].startedAt) && h.baseOffsetMS == es[i].base
  }

  ghost predicate HeaderKnown(c: Codec, es: seq<Event>, data: seq<Byte>)
  {
    HeaderOf(c, data).Some? ==> GivenHeader(es, HeaderOf(c, data).value)
  }

  lemma {:induction false} LinesHeader(c: Codec, lines: seq<seq<Byte>>, n: nat)
    requires n <= |lines|
    ensures ScanLines(c, lines[..n]).image.header.Some? ==> ScanLines(c, lines).image.header == ScanLines(c, lines[..n]).image.header
    ensures ScanLines(c, lines[..n]).image.header.Some? ==> ScanLines(c, lines[..n]).sawHeader
    ensures ScanLines(c, lines).image.header.Some? <==> ScanLines(c, lines).sawHeader && !ScanLines(c, lines).stopped
    decreases |lines|
  {
    if n == |lines| {
      assert lines[..n] == lines;
      if n > 0 { LinesHeader(c, lines[..n - 1], n - 1); }
    } else {
      var front := lines[..|lines| - 1];
      assert front[..n] == lines[..n];
      LinesHeader(c, front, n);
    }
  }

  /** Reading on never changes the header. */
  lemma PrefixHeader(c: Codec, a: seq<Byte>, b: seq<Byte>)
    requires a <= b
    ensures HeaderOf(c, a).Some? ==> HeaderOf(c, b) == HeaderOf(c, a)
  {
    assert b == a + b[|a|..];
    CutAppend(a, b[|a|..], NEWLINE);
    var pa, pb := Cut(a, NEWLINE).pieces, Cut(b, NEWLINE).pieces;
    assert pb[..|pa|] == pa;
    LinesHeader(c, pb, |pa|);
  }

  lemma GivenGrows(es: seq<Event>, e: Event, h: HeaderLine)
    requires GivenHeader(es, h)
    ensures GivenHeader(es + [e], h)
  {
    var i :| 0 <= i < |es| && es[i].Start? && SameInstant(h.recordingStartedAt, es[i].startedAt) && h.baseOffsetMS == es[i].base;
    assert (es + [e])[i] == es[i];
  }

  lemma AnewHeader(c: Codec, es: seq<Event>, d: Disk, startedAt: Time, base: int, io: OpenIO)
    requires Faithful(c) && d.synced <= |d.bytes| && HeaderKnown(c, es, d.bytes)
    ensures HeaderKnown(c, es + [Start(startedAt, base, io)], StartedAnew(c, d, startedAt, base, io).0.bytes)
  {
    var e := StartedAnew(c, d, startedAt, base, io).0;
    AnewDisk(c, d, startedAt, base, io);
    EmptyFile(c);
    assert ScanFile(c, []) == SCAN_START;
    if e.bytes == d.bytes {
      if HeaderOf(c, d.bytes).Some? {
        GivenGrows(es, Start(startedAt, base, io), HeaderOf(c, d.bytes).value);
      }
    } else if e.bytes != [] {
      var full := HeaderFile(c, startedAt, base);
      HeaderReplay(c, startedAt, base, c.encodeHeader(NewHeader(startedAt, base)).value);
      assert [] + full == full;
      PrefixHeader(c, e.bytes, full);
      assert (es + [Start(startedAt, base, io)])[|es|] == Start(startedAt, base, io);
    }
  }

  lemma WholeLinesHeader(c: Codec, data: seq<Byte>)
    ensures WholeLines(data) <= |data| && HeaderOf(c, data[..WholeLines(data)]) == HeaderOf(c, data)
  {
    CutWhole(data);
  }

  lemma ResumedBytes(c: Codec, d: Disk, startedAt: Time, base: int, io: OpenIO)
    requires ScanFile(c, d.bytes).sawHeader
    ensures var after := Boot(c, d, startedAt, base, io).0.bytes;
      WholeLines(d.bytes) <= |d.bytes| && (after == d.bytes || after == d.bytes[..WholeLines(d.bytes)])
  {
    CutSound(d.bytes, NEWLINE);
  }

  lemma SeenWithHeader(c: Codec, data: seq<Byte>)
    requires HeaderOf(c, data).Some?
    ensures ScanFile(c, data).sawHeader
  {
    var lines := Cut(data, NEWLINE).pieces;
    LinesHeader(c, lines, |lines|);
  }

  lemma StartStays(c: Codec, w: World, startedAt: Time, base: int, io: OpenIO)
    requires HeaderOf(c, w.disk.bytes).Some?
    ensures HeaderOf(c, JobStore.Started(c, w, startedAt, base, io).disk.bytes) == HeaderOf(c, w.disk.bytes)
  {
    SeenWithHeader(c, w.disk.bytes);
    ResumedBytes(c, w.disk, startedAt, base, io);
    WholeLinesHeader(c, w.disk.bytes);
  }

  lemma AppendStays(c: Codec, w: World, rec: Record, io: WriteIO)
    requires HeaderOf(c, w.disk.bytes).Some? && w.live.Some?
    ensures HeaderOf(c, Appended(c, w, rec, io).disk.bytes) == HeaderOf(c, w.disk.bytes)
  {
    PutDisk(c, w.disk, w.live.value, rec, io);
    PrefixHeader(c, w.disk.bytes, Appended(c, w, rec, io).disk.bytes);
  }

  lemma StepHeader(c: Codec, es: seq<Event>, w: World, e: Event)
    requires Faithful(c) && Durable(c, w) && HeaderKnown(c, es, w.disk.bytes)
    ensures HeaderKnown(c, es + [e], Step(c, w, e).disk.bytes)
  {
    var d, after := w.disk, Step(c, w, e).disk;
    if e.PowerLoss? {
      EmptyFile(c);
      assert ScanFile(c, []) == SCAN_START;
      PrefixHeader(c, after.bytes, d.bytes);
    } else if HeaderOf(c, d.bytes).Some? {
      if e.Start? {
        StartStays(c, w, e.startedAt, e.base, e.openIO);
      } else if e.Append? && w.live.Some? {
        AppendStays(c, w, e.rec, e.io);
      }
    } else if e.Start? && w.live.None? {
      StartHeader(c, es, d, e);
    } else if e.Append? && w.live.Some? {
      NoAppendYet(c, d, w.live.value, e.rec, e.io);
    }
    if HeaderOf(c, d.bytes).Some? {
      GivenGrows(es, e, HeaderOf(c, d.bytes).value);
    }
  }

  lemma StartHeader(c: Codec, es: seq<Event>, d: Disk, e: Event)
    requires Faithful(c) && d.synced <= |d.bytes| && HeaderKnown(c, es, d.bytes) && e.Start? && HeaderOf(c, d.bytes).None?
    ensures HeaderKnown(c, es + [e], Boot(c, d, e.startedAt, e.base, e.openIO).0.bytes)
  {
    if ScanFile(c, d.bytes).sawHeader {
      ResumedBytes(c, d, e.startedAt, e.base, e.openIO);
      WholeLinesHeader(c, d.bytes);
    } else if !e.openIO.readFails {
      AnewHeader(c, es, d, e.startedAt, e.base, e.openIO);
    }
  }

  /** A store that holds its file has a header in it. */
  lemma NoAppendYet(c: Codec, d: Disk, s: Live, rec: Record, io: WriteIO)
    requires Ready(c, d, s) && HeaderOf(c, d.bytes).None?
    ensures Put(c, d, s, rec, io).0 == d
  {
    var lines := Cut(d.bytes, NEWLINE).pieces;
    LinesHeader(c, lines, |lines|);
  }

  /** In every run the header of the file says when and at what offset some Start was told that recording begins. */
  lemma {:induction false} HeaderWasGiven(c: Codec, es: seq<Event>)
    requires Faithful(c)
    ensures HeaderKnown(c, es, Run(c, es).disk.bytes)
  {
    EmptyFile(c);
    assert ScanFile(c, []) == SCAN_START;
    if es != [] {
      var front, e := es[..|es| - 1], es[|es| - 1];
      HeaderWasGiven(c, front);
      RunDurable(c, front);
      StepHeader(c, front, Run(c, front), e);
      assert front + [e] == es;
    }
  }

  /** No step but a power loss changes a header once written. */
  lemma HeaderStays(c: Codec, es: seq<Event>, e: Event)
    requires HeaderOf(c, Run(c, es).disk.bytes).Some? && !e.PowerLoss?
    ensures HeaderOf(c, Run(c, es + [e]).disk.bytes) == HeaderOf(c, Run(c, es).disk.bytes)
  {
    RunAppend(c, es, e);
    var w := Run(c, es);
    if e.Start? {
      StartStays(c, w, e.startedAt, e.base, e.openIO);
    } else if e.Append? && w.live.Some? {
      AppendStays(c, w, e.rec, e.io);
    }
  }
}
