/** The agent-jobs journal: an append-only file of lines, its in-memory image, and its single writer. */
module JobJournal {
  import opened Options
  import opened Framing
  import opened JobRecord

  // ----- The image and its rules -----

  const CORRUPT_LINE := "corrupt_line"
  const CONFLICTING_RECORD := "conflicting_record"
  const MISSING_HEADER := "missing_header"
  const CORRUPT_HEADER := "corrupt_header"
  const UNSUPPORTED_VERSION := "unsupported_version"
  const IO_FAILED := "io_failed"
  const NO_JOURNAL := "no_journal"

  const UNAVAILABLE_REASONS: set<string> :=
    {NO_JOURNAL, MISSING_HEADER, CORRUPT_HEADER, UNSUPPORTED_VERSION, IO_FAILED}

  datatype Fact = Fact(kind: Kind, jobID: string)

  datatype Image = Image(
    header: Option<HeaderLine>,
    records: seq<Record>,
    facts: map<Fact, seq<Byte>>,
    reasons: set<string>)

  const NEW_IMAGE := Image(None, [], map[], {})

  datatype Verdict = New | Repeat | Conflict

  function FactOf(r: Record): Fact
  {
    Fact(r.kind, r.jobID)
  }

  function Opposite(kind: Kind): Kind
  {
    if kind == StartFailed then Started else StartFailed
  }

  function Classify(facts: map<Fact, seq<Byte>>, r: Record, line: seq<Byte>): Verdict
  {
    if FactOf(r) in facts then
      if facts[FactOf(r)] == line then Repeat else Conflict
    else if r.kind != Finished && Fact(Opposite(r.kind), r.jobID) in facts then Conflict
    else New
  }

  function Added(img: Image, r: Record, line: seq<Byte>): Image
  {
    img.(records := img.records + [r], facts := img.facts[FactOf(r) := line])
  }

  function Noted(img: Image, reason: string): Image
  {
    img.(reasons := img.reasons + {reason})
  }

  ghost predicate Stored(c: Codec, img: Image, r: Record)
  {
    && Acceptable(r) && Normalized(r) == r
    && FactOf(r) in img.facts && c.encode(r) == Some(img.facts[FactOf(r)])
  }

  ghost predicate HasRecord(records: seq<Record>, f: Fact)
  {
    exists i :: 0 <= i < |records| && FactOf(records[i]) == f
  }

  predicate DistinctFacts(records: seq<Record>)
  {
    forall i, j :: 0 <= i < j < |records| ==> FactOf(records[i]) != FactOf(records[j])
  }

  predicate NoStartedFailure(records: seq<Record>)
  {
    forall i, j :: 0 <= i < |records| && 0 <= j < |records| && records[i].kind == Started && records[j].kind == StartFailed ==>
      records[i].jobID != records[j].jobID
  }

  /** Records and facts are two views of one set: every record has its fact in stored form, no two records share
      a fact, and no job both started and failed to start. */
  ghost predicate Sound(c: Codec, img: Image)
  {
    && (forall i :: 0 <= i < |img.records| ==> Stored(c, img, img.records[i]))
    && (forall f :: f in img.facts ==> HasRecord(img.records, f))
    && DistinctFacts(img.records)
    && NoStartedFailure(img.records)
  }

  lemma NewIsFresh(c: Codec, img: Image, r: Record, line: seq<Byte>, i: nat)
    requires Sound(c, img) && Classify(img.facts, r, line) == New && i < |img.records|
    ensures FactOf(img.records[i]) != FactOf(r)
    ensures r.kind != Finished ==> FactOf(img.records[i]) != Fact(Opposite(r.kind), r.jobID)
  {
    assert Stored(c, img, img.records[i]);
  }

  lemma AddedCovers(records: seq<Record>, r: Record, f: Fact)
    requires HasRecord(records, f) || f == FactOf(r)
    ensures HasRecord(records + [r], f)
  {
    if HasRecord(records, f) {
      var i :| 0 <= i < |records| && FactOf(records[i]) == f;
      assert (records + [r])[i] == records[i];
    } else {
      assert (records + [r])[|records|] == r;
    }
  }

  lemma AddedSound(c: Codec, img: Image, r: Record, line: seq<Byte>)
    requires Sound(c, img) && Acceptable(r) && Normalized(r) == r && c.encode(r) == Some(line)
    requires Classify(img.facts, r, line) == New
    ensures Sound(c, Added(img, r, line))
  {
    var after := Added(img, r, line);
    var n := |img.records|;
    forall i | 0 <= i < n
      ensures FactOf(img.records[i]) != FactOf(r)
      ensures r.kind != Finished ==> FactOf(img.records[i]) != Fact(Opposite(r.kind), r.jobID)
    {
      NewIsFresh(c, img, r, line, i);
    }
    forall i | 0 <= i < |after.records|
      ensures Stored(c, after, after.records[i])
    {
      if i < n { assert Stored(c, img, img.records[i]); }
    }
    forall f | f in after.facts
      ensures HasRecord(after.records, f)
    {
      AddedCovers(img.records, r, f);
    }
    ExclusiveAdded(img.records, r);
  }

  lemma ExclusiveAdded(records: seq<Record>, r: Record)
    requires DistinctFacts(records) && NoStartedFailure(records)
    requires forall i :: 0 <= i < |records| ==> FactOf(records[i]) != FactOf(r)
    requires forall i :: 0 <= i < |records| && r.kind != Finished ==> FactOf(records[i]) != Fact(Opposite(r.kind), r.jobID)
    ensures DistinctFacts(records + [r]) && NoStartedFailure(records + [r])
  {
    var after := records + [r];
    forall i, j | 0 <= i < |after| && 0 <= j < |after| && after[i].kind == Started && after[j].kind == StartFailed
      ensures after[i].jobID != after[j].jobID
    {
      if i == |records| {
        assert FactOf(records[j]) != Fact(StartFailed, r.jobID);
      } else if j == |records| {
        assert FactOf(records[i]) != Fact(Started, r.jobID);
      }
    }
  }

  // ----- Replay -----

  datatype Scan = Scan(sawHeader: bool, stopped: bool, image: Image)

  const SCAN_START := Scan(false, false, NEW_IMAGE)

  /** The header, or the reason the first line is none. */
  datatype HeaderReading = Usable(header: HeaderLine) | Unusable(reason: string)

  function ReadHeader(c: Codec, line: seq<Byte>): HeaderReading
  {
    match c.decodeHeader(line)
    case None => Unusable(CORRUPT_HEADER)
    case Some(h) =>
      if h.kind != Header then Unusable(MISSING_HEADER)
      else if h.version <= 0 || IsZero(h.recordingStartedAt) || h.baseOffsetMS < 0 then Unusable(CORRUPT_HEADER)
      else if h.version != RECORD_VERSION then Unusable(UNSUPPORTED_VERSION)
      else Usable(h.(recordingStartedAt := UTC(h.recordingStartedAt)))
  }

  function ReplayRecord(c: Codec, img: Image, line: seq<Byte>): Image
  {
    match c.decode(line)
    case None => Noted(img, CORRUPT_LINE)
    case Some(decoded) =>
      var r := Normalized(decoded);
      match c.encode(r)
      case None => Noted(img, CORRUPT_LINE)
      case Some(canonical) =>
        if !Acceptable(r) then Noted(img, CORRUPT_LINE)
        else match Classify(img.facts, r, canonical)
             case New => Added(img, r, canonical)
             case Repeat => img
             case Conflict => Noted(img, CONFLICTING_RECORD)
  }

  function ScanLine(c: Codec, s: Scan, line: seq<Byte>): Scan
  {
    if s.stopped || Blank(line) then s
    else if !s.sawHeader then
      match ReadHeader(c, line)
      case Usable(h) => Scan(true, false, s.image.(header := Some(h)))
      case Unusable(reason) => Scan(true, true, Noted(s.image, reason))
    else s.(image := ReplayRecord(c, s.image, line))
  }

  function ScanLines(c: Codec, lines: seq<seq<Byte>>): Scan
  {
    if lines == [] then SCAN_START
    else ScanLine(c, ScanLines(c, lines[..|lines| - 1]), lines[|lines| - 1])
  }

  function ScanFile(c: Codec, data: seq<Byte>): Scan
  {
    ScanLines(c, Cut(data, NEWLINE).pieces)
  }

  /** The image a file stands for. */
  function Replayed(c: Codec, data: seq<Byte>): Image
  {
    var s := ScanFile(c, data);
    if s.sawHeader then s.image else Noted(s.image, MISSING_HEADER)
  }

  lemma {:induction false} ScanSound(c: Codec, lines: seq<seq<Byte>>)
    ensures Sound(c, ScanLines(c, lines).image)
  {
    if lines != [] {
      var front, line := lines[..|lines| - 1], lines[|lines| - 1];
      ScanSound(c, front);
      var s := ScanLines(c, front);
      if !s.stopped && !Blank(line) && s.sawHeader {
        ReplayRecordSound(c, s.image, line);
      }
    }
  }

  lemma ReplayRecordSound(c: Codec, img: Image, line: seq<Byte>)
    requires Sound(c, img)
    ensures Sound(c, ReplayRecord(c, img, line))
  {
    if c.decode(line).Some? {
      var r := Normalized(c.decode(line).value);
      NormalizedIdempotent(c.decode(line).value);
      if c.encode(r).Some? && Acceptable(r) && Classify(img.facts, r, c.encode(r).value) == New {
        AddedSound(c, img, r, c.encode(r).value);
      }
    }
  }

  /** Reading on only adds: what a shorter file told stays told, in the same order. */
  lemma {:induction false} ScanGrows(c: Codec, lines: seq<seq<Byte>>, n: nat)
    requires n <= |lines|
    ensures var a, b := ScanLines(c, lines[..n]), ScanLines(c, lines);
      && a.image.records <= b.image.records && a.image.reasons <= b.image.reasons
      && (a.sawHeader ==> b.sawHeader && b.image.header == a.image.header && b.stopped == a.stopped)
    decreases |lines|
  {
    if n == |lines| {
      assert lines[..n] == lines;
    } else {
      var front := lines[..|lines| - 1];
      ScanGrows(c, front, n);
      assert front[..n] == lines[..n];
    }
  }

  class Journal {
    var header: Option<HeaderLine>
    var records: seq<Record>
    var facts: map<Fact, seq<Byte>>
    var reasons: set<string>

    ghost function Contents(): Image
      reads this
    {
      Image(header, records, facts, reasons)
    }

    constructor ()
      ensures Contents() == NEW_IMAGE
    {
      header, records, facts, reasons := None, [], map[], {};
    }

    method Add(r: Record, line: seq<Byte>)
      modifies this
      ensures Contents() == Added(old(Contents()), r, line)
    {
      records := records + [r];
      facts := facts[FactOf(r) := line];
    }

    /** Takes a complete line other than the header. */
    method ReplayLine(c: Codec, line: seq<Byte>)
      modifies this
      ensures Contents() == ReplayRecord(c, old(Contents()), line)
    {
      var decoded := c.decode(line);
      if decoded.None? {
        reasons := reasons + {CORRUPT_LINE};
        return;
      }
      var r := Normalized(decoded.value);
      var canonical := c.encode(r);
      if canonical.None? || !Acceptable(r) {
        reasons := reasons + {CORRUPT_LINE};
        return;
      }
      var v := Classify(facts, r, canonical.value);
      if v == New {
        Add(r, canonical.value);
      } else if v == Conflict {
        reasons := reasons + {CONFLICTING_RECORD};
      }
    }

    /** One complete line: the first that is not blank is the header, and an unusable header ends the reading. */
    method TakeLine(c: Codec, line: seq<Byte>, sawHeader: bool) returns (saw: bool, stopped: bool)
      modifies this
      ensures Scan(saw, stopped, Contents()) == ScanLine(c, Scan(sawHeader, false, old(Contents())), line)
    {
      if Blank(line) {
        return sawHeader, false;
      }
      if sawHeader {
        ReplayLine(c, line);
        return true, false;
      }
      var reading := ReadHeader(c, line);
      if reading.Unusable? {
        reasons := reasons + {reading.reason};
        return true, true;
      }
      header := Some(reading.header);
      return true, false;
    }

    predicate Unavailable()
      reads this
    {
      exists reason :: reason in UNAVAILABLE_REASONS && reason in reasons
    }
  }

  /** The lines before pos have been read; the rest is still to be cut. */
  ghost predicate ReadUpTo(data: seq<Byte>, done: seq<seq<Byte>>, pos: nat)
  {
    && pos <= |data|
    && data[..pos] == Join(done, NEWLINE)
    && Cut(data, NEWLINE) == Cutting(done + Cut(data[pos..], NEWLINE).pieces, Cut(data[pos..], NEWLINE).rest)
  }

  lemma NextLine(c: Codec, data: seq<Byte>, done: seq<seq<Byte>>, pos: nat, end: nat, line: seq<Byte>)
    requires ReadUpTo(data, done, pos) && NEWLINE in data[pos..]
    requires end == IndexOf(data[pos..], NEWLINE) && line == data[pos..pos + end]
    ensures ReadUpTo(data, done + [line], pos + end + 1)
    ensures ScanLines(c, done + [line]) == ScanLine(c, ScanLines(c, done), line)
  {
    NextCut(data, pos, end, line);
    CutNext(data, done, pos, line, data[pos + end + 1..]);
    JoinPush(done, line, NEWLINE);
    ScanNext(c, done, line);
  }

  /** The header is seen with the first line that is not blank. */
  lemma {:induction false} SeenWhenNotBlank(c: Codec, lines: seq<seq<Byte>>)
    ensures ScanLines(c, lines).sawHeader <==> !Blank(Join(lines, NEWLINE))
  {
    if lines != [] {
      SeenWhenNotBlank(c, lines[..|lines| - 1]);
      BlankAppend(Join(lines[..|lines| - 1], NEWLINE), lines[|lines| - 1]);
      SeenOnce(c, lines);
    }
  }

  lemma {:induction false} SeenOnce(c: Codec, lines: seq<seq<Byte>>)
    ensures ScanLines(c, lines).stopped ==> ScanLines(c, lines).sawHeader
  {
    if lines != [] { SeenOnce(c, lines[..|lines| - 1]); }
  }

  /** The data around the next line. */
  lemma NextCut(data: seq<Byte>, pos: nat, end: nat, line: seq<Byte>)
    requires pos <= |data| && NEWLINE in data[pos..]
    requires end == IndexOf(data[pos..], NEWLINE) && line == data[pos..pos + end]
    ensures pos + end + 1 <= |data| && Free(line, NEWLINE)
    ensures data[pos..] == line + [NEWLINE] + data[pos + end + 1..]
    ensures data[..pos + end + 1] == data[..pos] + line + [NEWLINE]
  {
    var tail := data[pos..];
    assert line == tail[..end];
    assert tail == line + [NEWLINE] + tail[end + 1..];
    assert tail[end + 1..] == data[pos + end + 1..];
  }

  lemma CutNext(data: seq<Byte>, done: seq<seq<Byte>>, pos: nat, line: seq<Byte>, next: seq<Byte>)
    requires ReadUpTo(data, done, pos) && data[pos..] == line + [NEWLINE] + next && Free(line, NEWLINE)
    ensures Cut(data, NEWLINE) == Cutting((done + [line]) + Cut(next, NEWLINE).pieces, Cut(next, NEWLINE).rest)
  {
    CutTerminated(line, next, NEWLINE);
    assert done + ([line] + Cut(next, NEWLINE).pieces) == (done + [line]) + Cut(next, NEWLINE).pieces;
  }

  lemma ScanNext(c: Codec, done: seq<seq<Byte>>, line: seq<Byte>)
    ensures ScanLines(c, done + [line]) == ScanLine(c, ScanLines(c, done), line)
  {
    assert (done + [line])[..|done|] == done;
  }

  lemma LastLineRead(c: Codec, data: seq<Byte>, done: seq<seq<Byte>>, pos: nat)
    requires ReadUpTo(data, done, pos) && NEWLINE !in data[pos..]
    ensures Cut(data, NEWLINE) == Cutting(done, data[pos..])
    ensures ScanFile(c, data) == ScanLines(c, done)
  {
    CutFree(data[pos..], NEWLINE);
    assert done + [] == done;
  }

  lemma StoppedEarly(c: Codec, data: seq<Byte>, done: seq<seq<Byte>>, pos: nat)
    requires ReadUpTo(data, done, pos) && ScanLines(c, done).stopped
    ensures ScanFile(c, data) == ScanLines(c, done)
  {
    var lines := Cut(data, NEWLINE).pieces;
    assert lines[..|done|] == done;
    StoppedForGood(c, lines, |done|);
  }

  /** The loop over the bytes: a final line without its newline was never committed and is ignored.
      The offset is where the last complete line read ends. */
  method Replay(c: Codec, data: seq<Byte>) returns (j: Journal, validEnd: nat)
    ensures fresh(j) && j.Contents() == Replayed(c, data)
    ensures validEnd <= |data|
    ensures !ScanFile(c, data).stopped ==> data[validEnd..] == Cut(data, NEWLINE).rest
    ensures Blank(data[..validEnd]) <==> !ScanFile(c, data).sawHeader
  {
    j := new Journal();
    var sawHeader, stopped := false, false;
    validEnd := 0;
    ghost var done: seq<seq<Byte>> := [];
    NothingRead(c, data);
    while !stopped && NEWLINE in data[validEnd..]
      invariant ReadUpTo(data, done, validEnd)
      invariant ScanLines(c, done) == Scan(sawHeader, stopped, j.Contents())
      invariant fresh(j)
      decreases |data| - validEnd
    {
      var end := IndexOf(data[validEnd..], NEWLINE);
      var line := data[validEnd..validEnd + end];
      NextLine(c, data, done, validEnd, end, line);
      validEnd := validEnd + end + 1;
      done := done + [line];
      sawHeader, stopped := j.TakeLine(c, line, sawHeader);
    }
    AllRead(c, data, done, validEnd);
    if !sawHeader {
      j.reasons := j.reasons + {MISSING_HEADER};
    }
  }

  lemma AllRead(c: Codec, data: seq<Byte>, done: seq<seq<Byte>>, pos: nat)
    requires ReadUpTo(data, done, pos) && (ScanLines(c, done).stopped || NEWLINE !in data[pos..])
    ensures ScanFile(c, data) == ScanLines(c, done)
    ensures !ScanLines(c, done).stopped ==> Cut(data, NEWLINE).rest == data[pos..]
    ensures Blank(data[..pos]) <==> !ScanLines(c, done).sawHeader
    ensures ScanLines(c, done).stopped ==> ScanLines(c, done).sawHeader
  {
    SeenWhenNotBlank(c, done);
    SeenOnce(c, done);
    if ScanLines(c, done).stopped {
      StoppedEarly(c, data, done, pos);
    } else {
      LastLineRead(c, data, done, pos);
    }
  }

  lemma NothingRead(c: Codec, data: seq<Byte>)
    ensures ReadUpTo(data, [], 0) && ScanLines(c, []) == SCAN_START
  {
    assert data[0..] == data && data[..0] == [] && [] + Cut(data, NEWLINE).pieces == Cut(data, NEWLINE).pieces;
  }

  lemma BlankAppend(s: seq<Byte>, line: seq<Byte>)
    ensures Blank(s + line + [NEWLINE]) <==> Blank(s) && Blank(line)
  {
    var all := s + line + [NEWLINE];
    if Blank(all) {
      assert forall k :: 0 <= k < |s| ==> s[k] == all[k];
      assert forall k :: 0 <= k < |line| ==> line[k] == all[k + |s|];
    }
  }

  lemma {:induction false} StoppedForGood(c: Codec, lines: seq<seq<Byte>>, n: nat)
    requires n <= |lines| && ScanLines(c, lines[..n]).stopped
    ensures ScanLines(c, lines) == ScanLines(c, lines[..n])
    decreases |lines|
  {
    if n == |lines| {
      assert lines[..n] == lines;
    } else {
      var front := lines[..|lines| - 1];
      assert front[..n] == lines[..n];
      StoppedForGood(c, front, n);
    }
  }
}
