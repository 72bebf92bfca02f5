/** The writer of the agent-jobs journal over a disk that may fail, lose power or see the process die at any byte. */
module JobStore {
  import opened Options
  import opened Framing
  import opened JobRecord
  import opened JobJournal

  // ----- The disk -----

  /** The directory entry of the file: none, one that a power loss may take away, or one that is durable. */
  datatype Entry = Absent | Unlinked | Linked

  /** File content, of which the first synced bytes survive a power loss, provided that the entry does. */
  datatype Disk = Disk(bytes: seq<Byte>, synced: nat, entry: Entry)

  const NO_FILE := Disk([], 0, Absent)

  /** Opening for writing creates a missing file. */
  function Created(d: Disk): Disk
  {
    d.(entry := if d.entry == Absent then Unlinked else d.entry)
  }

  /** How one write-and-sync went: fully, stopped after n bytes of the line, or written but not synced. */
  datatype WriteIO = Written | Torn(n: nat) | Unsynced

  function WriteLine(d: Disk, line: seq<Byte>, io: WriteIO): (Disk, bool)
  {
    var all := line + [NEWLINE];
    match io
    case Written => (d.(bytes := d.bytes + all, synced := |d.bytes + all|), true)
    case Torn(n) => (d.(bytes := d.bytes + all[..if n < |all| then n else |all|]), false)
    case Unsynced => (d.(bytes := d.bytes + all), false)
  }

  /** The part of the machine's state a store owns. open: it still holds its file; failed: it latched. */
  datatype Live = Live(image: Image, open: bool, failed: bool, closed: bool)

  datatype Outcome = Accepted | Repeated | Invalid | Conflicting | AfterClose | Unavailable | WriteFailed

  function Latched(img: Image): Live
  {
    Live(Noted(img, IO_FAILED), false, true, false)
  }

  // ----- Append -----

  function Put(c: Codec, d: Disk, s: Live, rec: Record, io: WriteIO): (Disk, Live, Outcome)
  {
    var r := Normalized(rec);
    if !Acceptable(r) || c.encode(r).None? then (d, s, Invalid)
    else if s.closed then (d, s, AfterClose)
    else if !s.open then (d, s, Unavailable)
    else
      var line := c.encode(r).value;
      match Classify(s.image.facts, r, line)
      case Repeat => (d, s, Repeated)
      case Conflict => (d, s.(image := Noted(s.image, CONFLICTING_RECORD)), Conflicting)
      case New =>
        var (after, ok) := WriteLine(d, line, io);
        if ok then (after, s.(image := Added(s.image, r, line)), Accepted)
        else (after, Latched(s.image), WriteFailed)
  }

  // ----- Open -----

  datatype OpenIO = OpenIO(readFails: bool, openFails: bool, truncateFails: bool, header: WriteIO, dirSynced: bool)

  const ALL_WELL := OpenIO(false, false, false, Written, true)

  function NewHeader(startedAt: Time, baseOffsetMS: int): HeaderLine
  {
    HeaderLine(Header, RECORD_VERSION, UTC(startedAt), baseOffsetMS)
  }

  function WholeLines(data: seq<Byte>): nat
  {
    |Join(Cut(data, NEWLINE).pieces, NEWLINE)|
  }

  function TruncatedAt(d: Disk, end: nat): Disk
    requires end <= |d.bytes|
  {
    if end == |d.bytes| then d else d.(bytes := d.bytes[..end], synced := if d.synced < end then d.synced else end)
  }

  /** A file with a header: its torn tail is cut off and the writer goes on from there. */
  function Resumed(d: Disk, img: Image, end: nat, io: OpenIO): (Disk, Live)
    requires end <= |d.bytes|
  {
    if exists reason :: reason in UNAVAILABLE_REASONS && reason in img.reasons then (d, Live(img, false, true, false))
    else if io.openFails then (d, Latched(img))
    else if end != |d.bytes| && io.truncateFails then (d, Latched(img))
    else (TruncatedAt(d, end), Live(img, true, false, false))
  }

  /** A file with nothing to keep: it starts anew with a header. Only here is the directory synced. */
  function StartedAnew(c: Codec, d: Disk, startedAt: Time, base: int, io: OpenIO): (Disk, Live)
  {
    if IsZero(startedAt) || base < 0 then (d, Live(Noted(NEW_IMAGE, CORRUPT_HEADER), false, true, false)) else
      var start := NEW_IMAGE.(header := Some(NewHeader(startedAt, base)));
      if io.openFails then (d, Latched(start))
      else if d.bytes != [] && io.truncateFails then (Created(d), Latched(start))
      else match c.encodeHeader(NewHeader(startedAt, base))
           case None => (TruncatedAt(Created(d), 0), Latched(start))
           case Some(line) =>
             var (after, ok) := WriteLine(TruncatedAt(Created(d), 0), line, io.header);
             if ok && io.dirSynced then (after.(entry := Linked), Live(start, true, false, false)) else (after, Latched(start))
  }

  function Boot(c: Codec, d: Disk, startedAt: Time, base: int, io: OpenIO): (Disk, Live)
  {
    if io.readFails then (d, Latched(NEW_IMAGE))
    else if !ScanFile(c, d.bytes).sawHeader then StartedAnew(c, d, startedAt, base, io)
    else
      CutSound(d.bytes, NEWLINE);
      Resumed(d, Replayed(c, d.bytes), WholeLines(d.bytes), io)
  }

  // ----- Memory and disk agree -----

  ghost predicate SameFacts(a: Image, b: Image)
  {
    a.header == b.header && a.records == b.records && a.facts == b.facts
  }

  /** While a store holds its file, the file is whole lines and replaying it gives the store's image; the store may
      only know of more conflicts than the file does. */
  ghost predicate Ready(c: Codec, d: Disk, s: Live)
  {
    s.open ==>
      var scan := ScanFile(c, d.bytes);
      && Cut(d.bytes, NEWLINE).rest == []
      && scan.sawHeader && !scan.stopped
      && SameFacts(scan.image, s.image) && scan.image.reasons <= s.image.reasons
      && !s.failed && !s.closed
  }

  lemma CutWhole(data: seq<Byte>)
    ensures WholeLines(data) <= |data|
    ensures Cut(data[..WholeLines(data)], NEWLINE) == Cutting(Cut(data, NEWLINE).pieces, [])
    ensures data[WholeLines(data)..] == Cut(data, NEWLINE).rest
  {
    CutSound(data, NEWLINE);
    CutFreePieces(data, NEWLINE);
    var c := Cut(data, NEWLINE);
    var whole := Join(c.pieces, NEWLINE);
    assert data[..|whole|] == whole;
    CutJoin(c.pieces, [], NEWLINE);
    assert whole + [] == whole;
  }

  lemma LineAppended(c: Codec, data: seq<Byte>, line: seq<Byte>)
    requires Cut(data, NEWLINE).rest == [] && Free(line, NEWLINE)
    ensures Cut(data + (line + [NEWLINE]), NEWLINE).rest == []
    ensures ScanFile(c, data + (line + [NEWLINE])) == ScanLine(c, ScanFile(c, data), line)
  {
    CutAppendLine(data, line, NEWLINE);
    var lines := Cut(data, NEWLINE).pieces;
    assert (lines + [line])[..|lines|] == lines;
  }

  lemma PartAppended(c: Codec, data: seq<Byte>, part: seq<Byte>)
    requires Cut(data, NEWLINE).rest == [] && Free(part, NEWLINE)
    ensures ScanFile(c, data + part) == ScanFile(c, data)
    ensures WholeLines(data + part) == |data| && (data + part)[..|data|] == data
  {
    CutAppendTorn(data, part, NEWLINE);
    CutSound(data, NEWLINE);
    assert Join(Cut(data, NEWLINE).pieces, NEWLINE) + [] == data;
  }

  /** Replaying a line just written is accepting the fact that was written. */
  lemma ReplayOfWritten(c: Codec, img: Image, r: Record)
    requires Faithful(c) && Normalized(r) == r && Acceptable(r) && c.encode(r).Some?
    requires Classify(img.facts, r, c.encode(r).value) == New
    ensures CleanLine(c.encode(r).value)
    ensures ReplayRecord(c, img, c.encode(r).value) == Added(img, r, c.encode(r).value)
  {
  }

  lemma {:induction false} GoodScanReasons(c: Codec, lines: seq<seq<Byte>>)
    ensures !ScanLines(c, lines).stopped ==> ScanLines(c, lines).image.reasons <= {CORRUPT_LINE, CONFLICTING_RECORD}
    ensures ScanLines(c, lines).stopped ==> ScanLines(c, lines).sawHeader
    ensures ScanLines(c, lines).image.records != [] ==> ScanLines(c, lines).sawHeader && !ScanLines(c, lines).stopped
  {
    if lines != [] {
      GoodScanReasons(c, lines[..|lines| - 1]);
    }
  }

  lemma HeaderReplay(c: Codec, startedAt: Time, base: int, line: seq<Byte>)
    requires Faithful(c) && !IsZero(startedAt) && base >= 0
    requires c.encodeHeader(NewHeader(startedAt, base)) == Some(line)
    ensures CleanLine(line)
    ensures ScanFile(c, [] + (line + [NEWLINE])) == Scan(true, false, NEW_IMAGE.(header := Some(NewHeader(startedAt, base))))
    ensures Cut([] + (line + [NEWLINE]), NEWLINE).rest == []
  {
    var h := NewHeader(startedAt, base);
    assert UTC(h.recordingStartedAt) == h.recordingStartedAt;
    LineAppended(c, [], line);
    assert ScanFile(c, []) == SCAN_START;
    assert ReadHeader(c, line) == Usable(h);
  }

  lemma BootReady(c: Codec, d: Disk, startedAt: Time, base: int, io: OpenIO)
    requires Faithful(c)
    ensures var (after, s) := Boot(c, d, startedAt, base, io); Ready(c, after, s)
  {
    var (after, s) := Boot(c, d, startedAt, base, io);
    if s.open {
      if ScanFile(c, d.bytes).sawHeader {
        CutWhole(d.bytes);
        StoppedUnavailable(c, Cut(d.bytes, NEWLINE).pieces);
      } else {
        HeaderReplay(c, startedAt, base, c.encodeHeader(NewHeader(startedAt, base)).value);
      }
    }
  }

  lemma {:induction false} StoppedUnavailable(c: Codec, lines: seq<seq<Byte>>)
    ensures ScanLines(c, lines).stopped ==>
      exists reason :: reason in UNAVAILABLE_REASONS && reason in ScanLines(c, lines).image.reasons
  {
    if lines != [] {
      var front, line := lines[..|lines| - 1], lines[|lines| - 1];
      StoppedUnavailable(c, front);
      if ScanLines(c, lines).stopped && !ScanLines(c, front).stopped {
        var reason := ReadHeader(c, line).reason;
        assert reason in UNAVAILABLE_REASONS;
        assert reason in ScanLines(c, lines).image.reasons;
      }
    }
  }

  lemma PutReady(c: Codec, d: Disk, s: Live, rec: Record, io: WriteIO)
    requires Faithful(c) && Ready(c, d, s)
    ensures var (after, t, _) := Put(c, d, s, rec, io); Ready(c, after, t)
  {
    var (after, t, outcome) := Put(c, d, s, rec, io);
    if outcome == Accepted {
      var r := Normalized(rec);
      NormalizedIdempotent(rec);
      var scan := ScanFile(c, d.bytes);
      ReplayOfWritten(c, scan.image, r);
      LineAppended(c, d.bytes, c.encode(r).value);
    }
  }

  // ----- Crash at any byte -----

  /** Opening a file whose whole lines are good keeps them all and nothing else. */
  lemma BootKeeps(c: Codec, d: Disk, whole: seq<Byte>, startedAt: Time, base: int)
    requires Faithful(c)
    requires ScanFile(c, d.bytes).sawHeader && !ScanFile(c, d.bytes).stopped
    requires WholeLines(d.bytes) == |whole| && whole <= d.bytes
    ensures var (after, t) := Boot(c, d, startedAt, base, ALL_WELL);
      && t.open && Ready(c, after, t) && after.bytes == whole && t.image == ScanFile(c, d.bytes).image
      && after.entry == d.entry
      && after.synced == if d.synced < |whole| || |whole| == |d.bytes| then d.synced else |whole|
  {
    GoodScanReasons(c, Cut(d.bytes, NEWLINE).pieces);
    CutWhole(d.bytes);
    BootReady(c, d, startedAt, base, ALL_WELL);
  }

  /** Main result: wherever the write of a new fact is cut, opening the file again recovers exactly the earlier facts,
      plus this one only if its whole line reached the disk, and cuts the file back to exactly their lines. */
  lemma CrashAtAnyByte(c: Codec, d: Disk, s: Live, rec: Record, n: nat, startedAt: Time, base: int)
    requires Faithful(c) && Ready(c, d, s) && s.open && Put(c, d, s, rec, Written).2 == Accepted
    requires n <= |c.encode(Normalized(rec)).value| + 1
    ensures var r := Normalized(rec);
      var line := c.encode(r).value;
      var torn := d.(bytes := d.bytes + (line + [NEWLINE])[..n]);
      var (after, t) := Boot(c, torn, startedAt, base, ALL_WELL);
      && t.open && Ready(c, after, t)
      && (n <= |line| ==> after.bytes == d.bytes && SameFacts(t.image, s.image))
      && (n == |line| + 1 ==> after.bytes == torn.bytes && after.synced == d.synced && SameFacts(t.image, Added(s.image, r, line)))
  {
    var r := Normalized(rec);
    NormalizedIdempotent(rec);
    var line := c.encode(r).value;
    var torn := d.(bytes := d.bytes + (line + [NEWLINE])[..n]);
    ReplayOfWritten(c, ScanFile(c, d.bytes).image, r);
    if n <= |line| {
      assert (line + [NEWLINE])[..n] == line[..n];
      PartAppended(c, d.bytes, line[..n]);
      BootKeeps(c, torn, d.bytes, startedAt, base);
    } else {
      assert (line + [NEWLINE])[..n] == line + [NEWLINE];
      LineAppended(c, d.bytes, line);
      CutWhole(torn.bytes);
      BootKeeps(c, torn, torn.bytes, startedAt, base);
    }
  }

  // ----- Whole runs: what survives -----

  datatype Event =
    | Start(startedAt: Time, base: int, openIO: OpenIO)
    | Append(rec: Record, io: WriteIO)
    | Stop
    | Crash
    | PowerLoss(keep: nat, vanishes: bool)

  /** The journal's file and store, and what their callers saw. tried: every fact given to Append, in stored form.
      accepting: an Append was accepted since the present Open. acked: the facts reported as stored, either accepted or
      repeated while accepting. secured: an Open that had to create the journal returned no error, or the file was still
      there after a power loss. forgotten: facts that were acknowledged and went with the file. */
  datatype World = World(
    disk: Disk,
    live: Option<Live>,
    acked: set<Record>,
    tried: set<Record>,
    accepting: bool,
    secured: bool,
    forgotten: set<Record>)

  function Empty(): World
  {
    World(NO_FILE, None, {}, {}, false, false, {})
  }

  /** A power loss keeps the synced bytes and any part of the others. */
  function Survivor(d: Disk, keep: nat): Disk
  {
    var low := if keep < d.synced then d.synced else keep;
    d.(bytes := d.bytes[..if low < |d.bytes| then low else |d.bytes|])
  }

  /** It may take a file whose entry is not durable; an entry found afterwards is. */
  function AfterLoss(d: Disk, keep: nat, vanishes: bool): Disk
  {
    if d.entry != Unlinked then Survivor(d, keep)
    else if vanishes then NO_FILE
    else Survivor(d, keep).(entry := Linked)
  }

  ghost function Appended(c: Codec, w: World, rec: Record, io: WriteIO): World
    requires w.live.Some?
  {
    var (d, s, outcome) := Put(c, w.disk, w.live.value, rec, io);
    var stored := outcome == Accepted || (outcome == Repeated && w.accepting);
    w.(disk := d, live := Some(s),
       acked := if stored then w.acked + {Normalized(rec)} else w.acked,
       tried := w.tried + {Normalized(rec)},
       accepting := w.accepting || outcome == Accepted)
  }

  ghost function Started(c: Codec, w: World, startedAt: Time, base: int, io: OpenIO): World
  {
    var (d, s) := Boot(c, w.disk, startedAt, base, io);
    w.(disk := d, live := Some(s), accepting := false,
       secured := w.secured || (!ScanFile(c, w.disk.bytes).sawHeader && s.open))
  }

  function PoweredOff(w: World, keep: nat, vanishes: bool): World
  {
    var gone := w.disk.entry == Unlinked && vanishes;
    w.(disk := AfterLoss(w.disk, keep, vanishes), live := None,
       acked := if gone then {} else w.acked,
       secured := if w.disk.entry == Unlinked then !vanishes else w.secured,
       forgotten := if gone then w.forgotten + w.acked else w.forgotten)
  }

  ghost function Step(c: Codec, w: World, e: Event): World
  {
    match e
    case Start(startedAt, base, io) => if w.live.Some? then w else Started(c, w, startedAt, base, io)
    case Append(rec, io) => if w.live.None? then w else Appended(c, w, rec, io)
    case Stop => if w.live.None? then w else w.(live := Some(w.live.value.(open := false, closed := true)))
    case Crash => w.(live := None)
    case PowerLoss(keep, vanishes) => PoweredOff(w, keep, vanishes)
  }

  /** A run of one journal from an empty directory. */
  ghost function Run(c: Codec, es: seq<Event>): World
  {
    if es == [] then Empty() else Step(c, Run(c, es[..|es| - 1]), es[|es| - 1])
  }

  ghost predicate SyncedLines(d: Disk)
  {
    d.synced <= |d.bytes| && Cut(d.bytes[..d.synced], NEWLINE).rest == []
  }

  function RecordsOf(c: Codec, data: seq<Byte>): seq<Record>
  {
    ScanFile(c, data).image.records
  }

  /** Every acknowledged fact is in the synced part, every fact in the file was once given to Append, and once an Append
      was accepted the whole file is synced. */
  ghost predicate Durable(c: Codec, w: World)
  {
    && SyncedLines(w.disk)
    && (w.disk.entry == Absent ==> w.disk.bytes == [])
    && (w.secured <==> w.disk.entry == Linked)
    && (w.live.Some? ==> Ready(c, w.disk, w.live.value))
    && (w.live.Some? && w.live.value.open ==> w.disk.entry != Absent && (w.accepting ==> w.disk.synced == |w.disk.bytes|))
    && (forall r :: r in w.acked ==> r in RecordsOf(c, w.disk.bytes[..w.disk.synced]))
    && (forall r :: r in RecordsOf(c, w.disk.bytes) ==> r in w.tried)
  }

  /** A longer file tells everything a prefix of it tells. */
  lemma PrefixRecords(c: Codec, a: seq<Byte>, b: seq<Byte>)
    requires a <= b
    ensures RecordsOf(c, a) <= RecordsOf(c, b)
    ensures ScanFile(c, a).sawHeader ==> ScanFile(c, b).sawHeader
  {
    assert b == a + b[|a|..];
    CutAppend(a, b[|a|..], NEWLINE);
    var pa, pb := Cut(a, NEWLINE).pieces, Cut(b, NEWLINE).pieces;
    assert pb[..|pa|] == pa;
    ScanGrows(c, pb, |pa|);
  }

  lemma SyncedWithinWhole(data: seq<Byte>, n: nat)
    requires n <= |data| && Cut(data[..n], NEWLINE).rest == []
    ensures n <= WholeLines(data)
  {
    assert data == data[..n] + data[n..];
    CutAppend(data[..n], data[n..], NEWLINE);
    assert [] + data[n..] == data[n..];
    CutSound(data[n..], NEWLINE);
    CutWhole(data);
  }

  lemma StartDurable(c: Codec, w: World, startedAt: Time, base: int, io: OpenIO)
    requires Faithful(c) && Durable(c, w)
    ensures Durable(c, Started(c, w, startedAt, base, io))
  {
    if ScanFile(c, w.disk.bytes).sawHeader {
      ResumedDurable(c, w, startedAt, base, io);
    } else {
      AnewDurable(c, w, startedAt, base, io);
    }
  }

  /** A file started anew keeps its bytes, or has none, or has what was written of the header. */
  lemma AnewDisk(c: Codec, d: Disk, startedAt: Time, base: int, io: OpenIO)
    requires d.synced <= |d.bytes|
    ensures var (e, s) := StartedAnew(c, d, startedAt, base, io);
      && (e.entry == d.entry || e.entry == Created(d).entry || (e.entry == Linked && s.open))
      && (s.open ==> e.entry == Linked)
      && ((e.bytes == d.bytes && e.synced == d.synced)
          || (e.entry != Absent && e.bytes == [] && e.synced == 0)
          || (e.entry != Absent && CanStart(c, startedAt, base) && PartOfHeader(e, HeaderFile(c, startedAt, base))))
  {
  }

  predicate PartOfHeader(e: Disk, full: seq<Byte>)
  {
    e.bytes <= full && (e.synced == 0 || (e.bytes == full && e.synced == |full|))
  }

  lemma AnewDurable(c: Codec, w: World, startedAt: Time, base: int, io: OpenIO)
    requires Faithful(c) && Durable(c, w) && !ScanFile(c, w.disk.bytes).sawHeader
    ensures Durable(c, Started(c, w, startedAt, base, io))
  {
    var d, e := w.disk, Boot(c, w.disk, startedAt, base, io).0;
    BootReady(c, d, startedAt, base, io);
    NoRecordsWithoutHeader(c, w);
    if !io.readFails {
      AnewDisk(c, d, startedAt, base, io);
    }
    EmptyFile(c);
    assert e.synced == 0 ==> e.bytes[..e.synced] == [];
    if CanStart(c, startedAt, base) && PartOfHeader(e, HeaderFile(c, startedAt, base)) {
      HeaderHasNoRecords(c, startedAt, base, e.bytes);
      assert e.bytes[..|e.bytes|] == e.bytes;
    }
  }

  lemma HeaderHasNoRecords(c: Codec, startedAt: Time, base: int, part: seq<Byte>)
    requires Faithful(c) && CanStart(c, startedAt, base) && part <= HeaderFile(c, startedAt, base)
    ensures RecordsOf(c, part) == []
    ensures Cut(HeaderFile(c, startedAt, base), NEWLINE).rest == []
  {
    var full := HeaderFile(c, startedAt, base);
    HeaderReplay(c, startedAt, base, c.encodeHeader(NewHeader(startedAt, base)).value);
    assert [] + full == full;
    PrefixRecords(c, part, full);
  }

  lemma ResumedDurable(c: Codec, w: World, startedAt: Time, base: int, io: OpenIO)
    requires Faithful(c) && Durable(c, w) && ScanFile(c, w.disk.bytes).sawHeader
    ensures Durable(c, Started(c, w, startedAt, base, io))
  {
    BootReady(c, w.disk, startedAt, base, io);
    var d, e := w.disk, Boot(c, w.disk, startedAt, base, io).0;
    assert Cut([], NEWLINE) == Cutting([], []) && ScanFile(c, []) == SCAN_START;
    if e != d {
      SyncedWithinWhole(d.bytes, d.synced);
      CutWhole(d.bytes);
      assert e.bytes[..e.synced] == d.bytes[..d.synced];
      PrefixRecords(c, e.bytes, d.bytes);
    }
  }

  lemma NoRecordsWithoutHeader(c: Codec, w: World)
    requires Durable(c, w) && !ScanFile(c, w.disk.bytes).sawHeader
    ensures w.acked == {}
  {
    var d := w.disk;
    PrefixRecords(c, d.bytes[..d.synced], d.bytes);
    GoodScanReasons(c, Cut(d.bytes, NEWLINE).pieces);
    assert RecordsOf(c, d.bytes[..d.synced]) == [];
    assert forall r :: r in w.acked ==> r in RecordsOf(c, d.bytes[..d.synced]);
  }

  lemma WrittenRecords(c: Codec, data: seq<Byte>, r: Record)
    requires Faithful(c) && Normalized(r) == r && Acceptable(r) && c.encode(r).Some?
    requires Cut(data, NEWLINE).rest == [] && ScanFile(c, data).sawHeader && !ScanFile(c, data).stopped
    requires Classify(ScanFile(c, data).image.facts, r, c.encode(r).value) == New
    ensures var full := data + (c.encode(r).value + [NEWLINE]);
      Cut(full, NEWLINE).rest == [] && RecordsOf(c, full) == RecordsOf(c, data) + [r]
  {
    ReplayOfWritten(c, ScanFile(c, data).image, r);
    LineAppended(c, data, c.encode(r).value);
  }

  lemma InPrefix(a: seq<Record>, b: seq<Record>, r: Record)
    requires a <= b && r in a
    ensures r in b
  {
    var i :| 0 <= i < |a| && a[i] == r;
    assert b[i] == r;
  }

  lemma PrefixKnown(c: Codec, part: seq<Byte>, full: seq<Byte>, known: set<Record>)
    requires part <= full && forall q :: q in RecordsOf(c, full) ==> q in known
    ensures forall q :: q in RecordsOf(c, part) ==> q in known
  {
    PrefixRecords(c, part, full);
    forall q | q in RecordsOf(c, part)
      ensures q in known
    {
      InPrefix(RecordsOf(c, part), RecordsOf(c, full), q);
    }
  }

  lemma PrefixHolds(c: Codec, part: seq<Byte>, full: seq<Byte>, acked: set<Record>)
    requires part <= full && forall q :: q in acked ==> q in RecordsOf(c, part)
    ensures forall q :: q in acked ==> q in RecordsOf(c, full)
  {
    PrefixRecords(c, part, full);
    forall q | q in acked
      ensures q in RecordsOf(c, full)
    {
      InPrefix(RecordsOf(c, part), RecordsOf(c, full), q);
    }
  }

  /** The file after a whole line for a new fact. */
  function WithLine(c: Codec, d: Disk, r: Record): seq<Byte>
    requires c.encode(r).Some?
  {
    d.bytes + (c.encode(r).value + [NEWLINE])
  }

  /** What an append can do to the file: nothing, add the whole synced line, or add an unsynced part of it. */
  lemma PutDisk(c: Codec, d: Disk, s: Live, rec: Record, io: WriteIO)
    ensures var (e, t, outcome) := Put(c, d, s, rec, io);
      var r := Normalized(rec);
      && (outcome == Accepted || outcome == WriteFailed ==>
            s.open && Acceptable(r) && c.encode(r).Some? && Classify(s.image.facts, r, c.encode(r).value) == New)
      && (outcome == Accepted ==> e == d.(bytes := WithLine(c, d, r), synced := |WithLine(c, d, r)|))
      && (outcome == WriteFailed ==> d.bytes <= e.bytes <= WithLine(c, d, r) && e.synced == d.synced && e.entry == d.entry && !t.open)
      && (outcome != Accepted && outcome != WriteFailed ==> e == d)
  {
  }

  lemma AcceptedWrite(c: Codec, d: Disk, r: Record, acked: set<Record>, tried: set<Record>)
    requires SyncedLines(d) && c.encode(r).Some?
    requires Cut(WithLine(c, d, r), NEWLINE).rest == [] && RecordsOf(c, WithLine(c, d, r)) == RecordsOf(c, d.bytes) + [r]
    requires forall q :: q in acked ==> q in RecordsOf(c, d.bytes[..d.synced])
    requires forall q :: q in RecordsOf(c, d.bytes) ==> q in tried
    ensures var e := d.(bytes := WithLine(c, d, r), synced := |WithLine(c, d, r)|);
      && SyncedLines(e)
      && (forall q :: q in acked + {r} ==> q in RecordsOf(c, e.bytes[..e.synced]))
      && (forall q :: q in RecordsOf(c, e.bytes) ==> q in tried + {r})
  {
    var full := WithLine(c, d, r);
    assert full[..|full|] == full;
    PrefixHolds(c, d.bytes[..d.synced], full, acked);
    assert RecordsOf(c, full)[|RecordsOf(c, d.bytes)|] == r;
  }

  lemma FailedWrite(c: Codec, d: Disk, e: Disk, r: Record, acked: set<Record>, tried: set<Record>)
    requires SyncedLines(d) && c.encode(r).Some?
    requires RecordsOf(c, WithLine(c, d, r)) == RecordsOf(c, d.bytes) + [r]
    requires d.bytes <= e.bytes <= WithLine(c, d, r) && e.synced == d.synced
    requires forall q :: q in acked ==> q in RecordsOf(c, d.bytes[..d.synced])
    requires forall q :: q in RecordsOf(c, d.bytes) ==> q in tried
    ensures SyncedLines(e)
    ensures forall q :: q in acked ==> q in RecordsOf(c, e.bytes[..e.synced])
    ensures forall q :: q in RecordsOf(c, e.bytes) ==> q in tried + {r}
  {
    assert e.bytes[..e.synced] == d.bytes[..d.synced];
    PrefixKnown(c, e.bytes, WithLine(c, d, r), tried + {r});
  }

  lemma AppendDurable(c: Codec, w: World, rec: Record, io: WriteIO)
    requires Faithful(c) && Durable(c, w) && w.live.Some?
    ensures Durable(c, Appended(c, w, rec, io))
  {
    var d, s, r := w.disk, w.live.value, Normalized(rec);
    var (e, t, outcome) := Put(c, d, s, rec, io);
    PutReady(c, d, s, rec, io);
    PutDisk(c, d, s, rec, io);
    if outcome == Accepted || outcome == WriteFailed {
      NormalizedIdempotent(rec);
      WrittenRecords(c, d.bytes, r);
      if outcome == Accepted {
        AcceptedWrite(c, d, r, w.acked, w.tried);
      } else {
        FailedWrite(c, d, e, r, w.acked, w.tried);
      }
    } else if outcome == Repeated && w.accepting {
      RepeatOnDisk(c, d, s, rec, io);
      assert d.bytes[..d.synced] == d.bytes;
    }
  }

  /** What has the stored form of a fact is that fact. */
  lemma FactStored(c: Codec, img: Image, r: Record)
    requires Faithful(c) && Sound(c, img) && Acceptable(r) && Normalized(r) == r && c.encode(r).Some?
    requires FactOf(r) in img.facts && img.facts[FactOf(r)] == c.encode(r).value
    ensures r in img.records
  {
    assert HasRecord(img.records, FactOf(r));
    var i :| 0 <= i < |img.records| && FactOf(img.records[i]) == FactOf(r);
    assert Stored(c, img, img.records[i]);
    assert c.encode(img.records[i]) == c.encode(r);
  }

  /** A repeat is in the journal, and so in the file. */
  lemma RepeatOnDisk(c: Codec, d: Disk, s: Live, rec: Record, io: WriteIO)
    requires Faithful(c) && Ready(c, d, s) && Put(c, d, s, rec, io).2 == Repeated
    ensures s.open && Normalized(rec) in RecordsOf(c, d.bytes)
  {
    var r := Normalized(rec);
    NormalizedIdempotent(rec);
    ScanSound(c, Cut(d.bytes, NEWLINE).pieces);
    FactStored(c, ScanFile(c, d.bytes).image, r);
  }

  lemma StepDurable(c: Codec, w: World, e: Event)
    requires Faithful(c) && Durable(c, w)
    ensures Durable(c, Step(c, w, e))
  {
    match e
    case Start(startedAt, base, io) =>
      if w.live.None? { StartDurable(c, w, startedAt, base, io); }
    case Append(rec, io) =>
      if w.live.Some? { AppendDurable(c, w, rec, io); }
    case Stop =>
    case Crash =>
    case PowerLoss(keep, vanishes) => LossDurable(c, w, keep, vanishes);
  }

  lemma LossDurable(c: Codec, w: World, keep: nat, vanishes: bool)
    requires Durable(c, w)
    ensures Durable(c, PoweredOff(w, keep, vanishes))
  {
    var d := Survivor(w.disk, keep);
    assert d.bytes[..d.synced] == w.disk.bytes[..w.disk.synced];
    PrefixRecords(c, d.bytes, w.disk.bytes);
    PrefixKnown(c, d.bytes, w.disk.bytes, w.tried);
    EmptyFile(c);
  }

  lemma EmptyFile(c: Codec)
    ensures Cut([], NEWLINE) == Cutting([], []) && RecordsOf(c, []) == []
  {
    assert ScanFile(c, []) == SCAN_START;
  }

  /** Main result: in every run of starts, appends, stops, crashes and power losses with any disk failures, the file
      always includes every acknowledged fact, holds nothing that was never appended, and obeys the journal's rules. */
  lemma {:induction false} RunDurable(c: Codec, es: seq<Event>)
    requires Faithful(c)
    ensures Durable(c, Run(c, es))
    ensures forall r :: r in Run(c, es).acked ==> r in RecordsOf(c, Run(c, es).disk.bytes)
    ensures Sound(c, ScanFile(c, Run(c, es).disk.bytes).image)
  {
    if es == [] {
      EmptyFile(c);
      assert NO_FILE.bytes[..0] == [];
    } else {
      RunDurable(c, es[..|es| - 1]);
      StepDurable(c, Run(c, es[..|es| - 1]), es[|es| - 1]);
    }
    var d := Run(c, es).disk;
    PrefixHolds(c, d.bytes[..d.synced], d.bytes, Run(c, es).acked);
    ScanSound(c, Cut(d.bytes, NEWLINE).pieces);
  }

  lemma RunAppend(c: Codec, es: seq<Event>, e: Event)
    ensures Run(c, es + [e]) == Step(c, Run(c, es), e)
  {
    assert (es + [e])[..|es|] == es;
  }

  // ----- The directory entry -----

  /** The fact is in the file after whatever power loss comes next. */
  ghost predicate KeptByAnyLoss(c: Codec, es: seq<Event>, r: Record)
  {
    forall keep: nat, vanishes: bool {:trigger PowerLoss(keep, vanishes)} ::
      r in RecordsOf(c, Run(c, es + [PowerLoss(keep, vanishes)]).disk.bytes)
  }

  /** What an acknowledgement is worth: the acknowledged facts survive whatever power loss comes next if and only if the
      Open that created the journal returned without an error, or the file was found again after an earlier loss. */
  lemma AcknowledgedSurviveExact(c: Codec, es: seq<Event>)
    requires Faithful(c)
    ensures var w := Run(c, es);
      (forall r :: r in w.acked ==> KeptByAnyLoss(c, es, r)) <==> w.acked == {} || w.secured
  {
    var w := Run(c, es);
    if w.secured {
      forall r | r in w.acked
        ensures KeptByAnyLoss(c, es, r)
      {
        forall keep: nat, vanishes: bool
          ensures r in RecordsOf(c, Run(c, es + [PowerLoss(keep, vanishes)]).disk.bytes)
        {
          AckedKept(c, es, keep, vanishes, r);
        }
      }
    } else if w.acked != {} {
      var r :| r in w.acked;
      GoesWithTheFile(c, es, r);
    }
  }

  lemma GoesWithTheFile(c: Codec, es: seq<Event>, r: Record)
    requires Faithful(c) && !Run(c, es).secured && r in Run(c, es).acked
    ensures !KeptByAnyLoss(c, es, r)
  {
    RunDurable(c, es);
    EmptyFile(c);
    RunAppend(c, es, PowerLoss(0, true));
    assert Run(c, es).disk.bytes != [];
    assert r !in RecordsOf(c, Run(c, es + [PowerLoss(0, true)]).disk.bytes);
  }

  lemma AckedKept(c: Codec, es: seq<Event>, keep: nat, vanishes: bool, r: Record)
    requires Faithful(c) && Run(c, es).secured && r in Run(c, es).acked
    ensures r in RecordsOf(c, Run(c, es + [PowerLoss(keep, vanishes)]).disk.bytes)
  {
    RunDurable(c, es);
    RunAppend(c, es, PowerLoss(keep, vanishes));
    SyncedSurvives(c, Run(c, es).disk, keep, vanishes, r);
  }

  lemma SyncedSurvives(c: Codec, d: Disk, keep: nat, vanishes: bool, r: Record)
    requires d.synced <= |d.bytes| && d.entry == Linked && r in RecordsOf(c, d.bytes[..d.synced])
    ensures r in RecordsOf(c, AfterLoss(d, keep, vanishes).bytes)
  {
    var e := AfterLoss(d, keep, vanishes);
    assert d.bytes[..d.synced] <= e.bytes;
    PrefixRecords(c, d.bytes[..d.synced], e.bytes);
    InPrefix(RecordsOf(c, d.bytes[..d.synced]), RecordsOf(c, e.bytes), r);
  }

  /** Facts are forgotten in no other way than with the whole file, and then the file was not secured. */
  lemma ForgottenWithTheFile(c: Codec, es: seq<Event>, e: Event)
    requires Faithful(c)
    requires !(Run(c, es).acked <= Run(c, es + [e]).acked)
    ensures e.PowerLoss? && e.vanishes && !Run(c, es).secured
    ensures Run(c, es + [e]).disk == NO_FILE && Run(c, es).acked <= Run(c, es + [e]).forgotten
  {
    SecuredMeansLinked(c, es);
    RunAppend(c, es, e);
    StepForgets(c, Run(c, es), e);
  }

  lemma SecuredMeansLinked(c: Codec, es: seq<Event>)
    requires Faithful(c)
    ensures Run(c, es).secured <==> Run(c, es).disk.entry == Linked
  {
    RunDurable(c, es);
  }

  lemma StepForgets(c: Codec, w: World, e: Event)
    requires w.secured <==> w.disk.entry == Linked
    ensures var v := Step(c, w, e);
      w.acked <= v.acked || (e.PowerLoss? && e.vanishes && !w.secured && v.disk == NO_FILE && w.acked <= v.forgotten)
  {
    if e.PowerLoss? {
      LossForgets(c, w, e.keep, e.vanishes);
    } else {
      OthersForgetNothing(c, w, e);
    }
  }

  lemma LossForgets(c: Codec, w: World, keep: nat, vanishes: bool)
    requires w.secured <==> w.disk.entry == Linked
    ensures var v := PoweredOff(w, keep, vanishes);
      w.acked <= v.acked || (vanishes && !w.secured && v.disk == NO_FILE && w.acked <= v.forgotten)
  {
  }

  lemma OthersForgetNothing(c: Codec, w: World, e: Event)
    requires !e.PowerLoss?
    ensures w.acked <= Step(c, w, e).acked
  {
  }

  /** An Open whose directory sync fails returns an error, the next one does not, although the entry is still not
      durable: an append it accepts goes with the file. */
  lemma AcknowledgedMayVanish(c: Codec, rec: Record, startedAt: Time, base: int, again: OpenIO)
    requires Faithful(c) && CanStart(c, startedAt, base) && CanStore(c, rec)
    requires !again.readFails && !again.openFails
    ensures var unsynced := ALL_WELL.(dirSynced := false);
      var es := [Start(startedAt, base, unsynced), Crash, Start(startedAt, base, again), Append(rec, Written)];
      var w := Run(c, es);
      && Normalized(rec) in w.acked
      && Run(c, es + [PowerLoss(0, true)]).disk == NO_FILE
      && Normalized(rec) in Run(c, es + [PowerLoss(0, true)]).forgotten
  {
    var unsynced := ALL_WELL.(dirSynced := false);
    var first := [Start(startedAt, base, unsynced), Crash];
    var es := first + [Start(startedAt, base, again)] + [Append(rec, Written)];
    UnsyncedDirectory(c, startedAt, base);
    AcceptedUnlinked(c, Run(c, first), rec, startedAt, base, again);
    RunAppend(c, first, Start(startedAt, base, again));
    RunAppend(c, first + [Start(startedAt, base, again)], Append(rec, Written));
    RunAppend(c, es, PowerLoss(0, true));
    assert es == [Start(startedAt, base, unsynced), Crash, Start(startedAt, base, again), Append(rec, Written)];
  }

  lemma UnsyncedDirectory(c: Codec, startedAt: Time, base: int)
    requires Faithful(c) && CanStart(c, startedAt, base)
    ensures var w := Run(c, [Start(startedAt, base, ALL_WELL.(dirSynced := false)), Crash]);
      w.disk == Disk(HeaderFile(c, startedAt, base), |HeaderFile(c, startedAt, base)|, Unlinked) && w.live.None?
  {
    var start := Start(startedAt, base, ALL_WELL.(dirSynced := false));
    RunOne(c, start);
    FreshStart(c, startedAt, base, start.openIO);
    RunAppend(c, [start], Crash);
    assert [start] + [Crash] == [start, Crash];
  }

  lemma AcceptedUnlinked(c: Codec, w: World, rec: Record, startedAt: Time, base: int, again: OpenIO)
    requires Faithful(c) && CanStart(c, startedAt, base) && CanStore(c, rec)
    requires !again.readFails && !again.openFails
    requires w.live.None? && w.disk == Disk(HeaderFile(c, startedAt, base), |HeaderFile(c, startedAt, base)|, Unlinked)
    ensures var v := Step(c, Step(c, w, Start(startedAt, base, again)), Append(rec, Written));
      Normalized(rec) in v.acked && v.disk.entry == Unlinked
  {
    HeaderResumed(c, startedAt, base, w.disk, again);
    FirstAppend(c, rec, startedAt, base, w.disk, Written);
  }

  predicate CanStart(c: Codec, startedAt: Time, base: int)
  {
    !IsZero(startedAt) && base >= 0 && c.encodeHeader(NewHeader(startedAt, base)).Some?
  }

  predicate CanStore(c: Codec, rec: Record)
  {
    Acceptable(Normalized(rec)) && c.encode(Normalized(rec)).Some?
  }

  /** The file right after its header was written. */
  function HeaderFile(c: Codec, startedAt: Time, base: int): seq<Byte>
    requires CanStart(c, startedAt, base)
  {
    c.encodeHeader(NewHeader(startedAt, base)).value + [NEWLINE]
  }

  function HeaderImage(startedAt: Time, base: int): Image
  {
    NEW_IMAGE.(header := Some(NewHeader(startedAt, base)))
  }

  lemma RunOne(c: Codec, e: Event)
    ensures Run(c, [e]) == Step(c, Empty(), e)
  {
    RunAppend(c, [], e);
    assert [] + [e] == [e];
  }

  lemma FreshStart(c: Codec, startedAt: Time, base: int, io: OpenIO)
    requires Faithful(c) && CanStart(c, startedAt, base)
    requires !io.readFails && !io.openFails && io.header == Written
    ensures var h := HeaderFile(c, startedAt, base);
      var w := Started(c, Empty(), startedAt, base, io);
      && w.disk == Disk(h, |h|, if io.dirSynced then Linked else Unlinked)
      && w.acked == {} && w.forgotten == {} && w.secured == io.dirSynced
      && w.live.Some? && (io.dirSynced ==> w.live.value == Live(HeaderImage(startedAt, base), true, false, false))
  {
    EmptyFile(c);
    assert [] + HeaderFile(c, startedAt, base) == HeaderFile(c, startedAt, base);
  }

  /** Opening the file again finds nothing but the header. */
  lemma HeaderResumed(c: Codec, startedAt: Time, base: int, d: Disk, io: OpenIO)
    requires Faithful(c) && CanStart(c, startedAt, base)
    requires d.bytes == HeaderFile(c, startedAt, base) && !io.readFails && !io.openFails
    ensures Boot(c, d, startedAt, base, io) == (d, Live(HeaderImage(startedAt, base), true, false, false))
    ensures ScanFile(c, d.bytes).sawHeader
  {
    var line := c.encodeHeader(NewHeader(startedAt, base)).value;
    HeaderReplay(c, startedAt, base, line);
    assert [] + (line + [NEWLINE]) == d.bytes;
    CutWhole(d.bytes);
    assert WholeLines(d.bytes) == |d.bytes|;
  }

  /** The first fact after the header is new. */
  lemma FirstAppend(c: Codec, rec: Record, startedAt: Time, base: int, d: Disk, io: WriteIO)
    requires CanStore(c, rec)
    ensures var s := Live(HeaderImage(startedAt, base), true, false, false);
      && Classify(s.image.facts, Normalized(rec), c.encode(Normalized(rec)).value) == New
      && Put(c, d, s, rec, io).2 == (if io == Written then Accepted else WriteFailed)
      && Put(c, d, s, rec, io).0 == WriteLine(d, c.encode(Normalized(rec)).value, io).0
  {
  }

  // ----- A repeat is weaker than an acceptance -----

  /** The fact was reported as stored although nothing was written for it. */
  ghost predicate RepeatsAt(c: Codec, es: seq<Event>, rec: Record, io: WriteIO)
  {
    var w := Run(c, es);
    w.live.Some? && Put(c, w.disk, w.live.value, rec, io).2 == Repeated
  }

  /** Over all runs of a secured journal, a repeat is durable once an Append has been accepted since the present Open. */
  lemma RepeatDurable(c: Codec, es: seq<Event>, rec: Record, io: WriteIO)
    requires Faithful(c) && RepeatsAt(c, es, rec, io)
    requires Run(c, es).secured && Run(c, es).accepting
    ensures KeptByAnyLoss(c, es + [Append(rec, io)], Normalized(rec))
  {
    var after := es + [Append(rec, io)];
    RunAppend(c, es, Append(rec, io));
    RepeatAcked(c, Run(c, es), rec, io);
    forall keep: nat, vanishes: bool
      ensures Normalized(rec) in RecordsOf(c, Run(c, after + [PowerLoss(keep, vanishes)]).disk.bytes)
    {
      AckedKept(c, after, keep, vanishes, Normalized(rec));
    }
  }

  lemma RepeatAcked(c: Codec, w: World, rec: Record, io: WriteIO)
    requires w.live.Some? && Put(c, w.disk, w.live.value, rec, io).2 == Repeated && w.accepting
    ensures Normalized(rec) in Step(c, w, Append(rec, io)).acked
    ensures Step(c, w, Append(rec, io)).secured == w.secured
  {
  }

  /** Before that a repeat may be lost, whatever the fact: it was written but not synced, the process died, the next Open
      recovered it, and a repeat is answered with success. */
  lemma RepeatMayBeLost(c: Codec, rec: Record, startedAt: Time, base: int)
    requires Faithful(c) && CanStart(c, startedAt, base) && CanStore(c, rec)
    ensures var es := [Start(startedAt, base, ALL_WELL), Append(rec, Unsynced), Crash, Start(startedAt, base, ALL_WELL)];
      && RepeatsAt(c, es, rec, Written) && Run(c, es).secured && !Run(c, es).accepting
      && !KeptByAnyLoss(c, es + [Append(rec, Written)], Normalized(rec))
  {
    var h := HeaderFile(c, startedAt, base);
    var d := Disk(h, |h|, Linked);
    var es := [Start(startedAt, base, ALL_WELL), Append(rec, Unsynced), Crash, Start(startedAt, base, ALL_WELL)];
    UnsyncedThenOpened(c, rec, startedAt, base);
    RecoveredRepeats(c, rec, startedAt, base, d);
    var w := Run(c, es);
    RunAppend(c, es, Append(rec, Written));
    RunAppend(c, es + [Append(rec, Written)], PowerLoss(0, false));
    LostTail(c, startedAt, base, d, c.encode(Normalized(rec)).value + [NEWLINE]);
    assert Run(c, es + [Append(rec, Written)] + [PowerLoss(0, false)]).disk == Survivor(w.disk, 0);
  }

  /** The run up to the second Open. */
  lemma UnsyncedThenOpened(c: Codec, rec: Record, startedAt: Time, base: int)
    requires Faithful(c) && CanStart(c, startedAt, base) && CanStore(c, rec)
    ensures var es := [Start(startedAt, base, ALL_WELL), Append(rec, Unsynced), Crash, Start(startedAt, base, ALL_WELL)];
      var h := HeaderFile(c, startedAt, base);
      var d2 := Disk(h + (c.encode(Normalized(rec)).value + [NEWLINE]), |h|, Linked);
      var w := Run(c, es);
      && (w.disk, w.live) == (Boot(c, d2, startedAt, base, ALL_WELL).0, Some(Boot(c, d2, startedAt, base, ALL_WELL).1))
      && w.secured && !w.accepting
  {
    var e1 := [Start(startedAt, base, ALL_WELL)];
    RunOne(c, e1[0]);
    FreshStart(c, startedAt, base, ALL_WELL);
    RunAppend(c, e1, Append(rec, Unsynced));
    var h := HeaderFile(c, startedAt, base);
    FirstAppend(c, rec, startedAt, base, Disk(h, |h|, Linked), Unsynced);
    var e2 := e1 + [Append(rec, Unsynced)];
    RunAppend(c, e2, Crash);
    RunAppend(c, e2 + [Crash], Start(startedAt, base, ALL_WELL));
    assert e2 + [Crash] + [Start(startedAt, base, ALL_WELL)]
      == [Start(startedAt, base, ALL_WELL), Append(rec, Unsynced), Crash, Start(startedAt, base, ALL_WELL)];
  }

  lemma LostTail(c: Codec, startedAt: Time, base: int, d: Disk, tail: seq<Byte>)
    requires Faithful(c) && CanStart(c, startedAt, base)
    requires d.bytes == HeaderFile(c, startedAt, base) && d.synced == |d.bytes|
    ensures RecordsOf(c, Survivor(d.(bytes := d.bytes + tail), 0).bytes) == []
  {
    assert Survivor(d.(bytes := d.bytes + tail), 0).bytes == d.bytes;
    HeaderHasNoRecords(c, startedAt, base, d.bytes);
  }

  lemma RecoveredRepeats(c: Codec, rec: Record, startedAt: Time, base: int, d: Disk)
    requires Faithful(c) && CanStart(c, startedAt, base) && CanStore(c, rec)
    requires d.bytes == HeaderFile(c, startedAt, base) && d.synced == |d.bytes|
    ensures var line := c.encode(Normalized(rec)).value;
      var d2 := d.(bytes := d.bytes + (line + [NEWLINE]));
      var (e, t) := Boot(c, d2, startedAt, base, ALL_WELL);
      && e == d2 && ScanFile(c, d2.bytes).sawHeader && Put(c, e, t, rec, Written) == (e, t, Repeated)
  {
    var s := Live(HeaderImage(startedAt, base), true, false, false);
    var line := c.encode(Normalized(rec)).value;
    HeaderResumed(c, startedAt, base, d, ALL_WELL);
    FirstAppend(c, rec, startedAt, base, d, Written);
    BootReady(c, d, startedAt, base, ALL_WELL);
    assert (line + [NEWLINE])[..|line| + 1] == line + [NEWLINE];
    CrashAtAnyByte(c, d, s, rec, |line| + 1, startedAt, base);
  }

  /** Together: for a journal that is secured, a repeat is certain to be durable exactly when the caller has seen an
      Append accepted since the present Open. */
  lemma RepeatDurableExact(c: Codec, rec: Record, startedAt: Time, base: int, accepting: bool)
    requires Faithful(c) && CanStart(c, startedAt, base) && CanStore(c, rec)
    ensures accepting <==>
      forall es, io | RepeatsAt(c, es, rec, io) && Run(c, es).secured && Run(c, es).accepting == accepting ::
        KeptByAnyLoss(c, es + [Append(rec, io)], Normalized(rec))
  {
    if accepting {
      forall es, io | RepeatsAt(c, es, rec, io) && Run(c, es).secured && Run(c, es).accepting == accepting
        ensures KeptByAnyLoss(c, es + [Append(rec, io)], Normalized(rec))
      {
        RepeatDurable(c, es, rec, io);
      }
    } else {
      RepeatMayBeLost(c, rec, startedAt, base);
    }
  }

  // ----- The store object -----

  class File {
    var bytes: seq<Byte>
    var synced: nat

    var entry: Entry

    ghost function Contents(): Disk
      reads this
    {
      Disk(bytes, synced, entry)
    }

    constructor (d: Disk)
      ensures Contents() == d
    {
      bytes, synced, entry := d.bytes, d.synced, d.entry;
    }

    method Create()
      modifies this`entry
      ensures Contents() == Created(old(Contents()))
    {
      if entry == Absent {
        entry := Unlinked;
      }
    }

    method SyncDirectory(ok: bool)
      modifies this`entry
      ensures Contents() == old(Contents()).(entry := if ok then Linked else old(entry))
    {
      if ok {
        entry := Linked;
      }
    }

    method Write(line: seq<Byte>, io: WriteIO) returns (ok: bool)
      modifies this
      ensures (Contents(), ok) == WriteLine(old(Contents()), line, io)
    {
      var all := line + [NEWLINE];
      match io {
        case Written =>
          bytes := bytes + all;
          synced := |bytes|;
          ok := true;
        case Torn(n) =>
          bytes := bytes + all[..if n < |all| then n else |all|];
          ok := false;
        case Unsynced =>
          bytes := bytes + all;
          ok := false;
      }
    }

    method Truncate(end: nat)
      requires end <= |bytes|
      modifies this
      ensures Contents() == Disk(old(bytes)[..end], if old(synced) < end then old(synced) else end, old(entry))
    {
      bytes := bytes[..end];
      synced := if synced < end then synced else end;
    }
  }

  class Store {
    const codec: Codec
    const file: File
    const j: Journal
    var open: bool
    var failed: bool
    var closed: bool

    ghost function Contents(): Live
      reads this, j
    {
      Live(j.Contents(), open, failed, closed)
    }

    constructor Latch(c: Codec, f: File, journal: Journal, reason: string)
      modifies journal
      ensures codec == c && file == f && j == journal
      ensures Contents() == Live(Noted(old(journal.Contents()), reason), false, true, false)
    {
      codec, file, j := c, f, journal;
      open, failed, closed := false, true, false;
      new;
      j.reasons := j.reasons + {reason};
    }

    constructor Hold(c: Codec, f: File, journal: Journal)
      ensures codec == c && file == f && j == journal
      ensures Contents() == Live(journal.Contents(), true, false, false)
    {
      codec, file, j := c, f, journal;
      open, failed, closed := true, false, false;
    }

    /** Records a fact durably before making it visible. A repeat is a no-op, a different fact for the same job is
        refused, and a write failure latches the store. */
    method Append(rec: Record, io: WriteIO) returns (outcome: Outcome)
      modifies this, j, file
      ensures (file.Contents(), Contents(), outcome) == Put(codec, old(file.Contents()), old(Contents()), rec, io)
      ensures outcome == Accepted ==> exists q :: KeptAs(rec, q) && j.records == old(j.records) + [q]
      ensures outcome != Accepted ==> j.records == old(j.records)
    {
      var r := Normalized(rec);
      KeptAsExact(rec, r);
      var line := codec.encode(r);
      if !Acceptable(r) || line.None? {
        return Invalid;
      }
      if closed {
        return AfterClose;
      }
      if !open {
        return Unavailable;
      }
      var v := Classify(j.facts, r, line.value);
      if v == Repeat {
        return Repeated;
      }
      if v == Conflict {
        j.reasons := j.reasons + {CONFLICTING_RECORD};
        return Conflicting;
      }
      var ok := file.Write(line.value, io);
      if !ok {
        open, failed := false, true;
        j.reasons := j.reasons + {IO_FAILED};
        return WriteFailed;
      }
      j.Add(r, line.value);
      outcome := Accepted;
    }

    /** Close is safe to call twice. */
    method Close()
      modifies this
      ensures Contents() == old(Contents()).(open := false, closed := true)
    {
      closed := true;
      open := false;
    }
  }

  /** Open for append. A torn tail is cut off, an existing header is kept, and a file without one starts anew. */
  method Open(c: Codec, f: File, startedAt: Time, base: int, io: OpenIO) returns (s: Store)
    modifies f
    ensures s.file == f && s.codec == c && fresh(s) && fresh(s.j)
    ensures (f.Contents(), s.Contents()) == Boot(c, old(f.Contents()), startedAt, base, io)
  {
    if io.readFails {
      var empty := new Journal();
      s := new Store.Latch(c, f, empty, IO_FAILED);
      return;
    }
    var j, validEnd := Replay(c, f.bytes);
    if Blank(f.bytes[..validEnd]) {
      s := OpenAnew(c, f, startedAt, base, io);
    } else {
      if !ScanFile(c, f.bytes).stopped {
        CutWhole(f.bytes);
        assert validEnd == WholeLines(f.bytes);
      }
      StoppedUnavailable(c, Cut(f.bytes, NEWLINE).pieces);
      CutWhole(f.bytes);
      s := OpenExisting(c, f, j, validEnd, io);
    }
  }

  method OpenExisting(c: Codec, f: File, j: Journal, validEnd: nat, io: OpenIO) returns (s: Store)
    requires validEnd <= |f.bytes|
    modifies f, j
    ensures s.file == f && s.codec == c && fresh(s) && s.j == j
    ensures (f.Contents(), s.Contents()) == Resumed(old(f.Contents()), old(j.Contents()), validEnd, io)
  {
    var unavailable := j.Unavailable();
    if unavailable {
      var reason :| reason in UNAVAILABLE_REASONS && reason in j.reasons;
      ghost var before := j.reasons;
      s := new Store.Latch(c, f, j, reason);
      assert j.reasons == before;
      return;
    }
    if io.openFails {
      s := new Store.Latch(c, f, j, IO_FAILED);
      return;
    }
    if validEnd != |f.bytes| {
      if io.truncateFails {
        s := new Store.Latch(c, f, j, IO_FAILED);
        return;
      }
      f.Truncate(validEnd);
    }
    s := new Store.Hold(c, f, j);
  }

  method OpenAnew(c: Codec, f: File, startedAt: Time, base: int, io: OpenIO) returns (s: Store)
    modifies f
    ensures s.file == f && s.codec == c && fresh(s) && fresh(s.j)
    ensures (f.Contents(), s.Contents()) == StartedAnew(c, old(f.Contents()), startedAt, base, io)
  {
    var j := new Journal();
    if IsZero(startedAt) || base < 0 {
      s := new Store.Latch(c, f, j, CORRUPT_HEADER);
      return;
    }
    j.header := Some(NewHeader(startedAt, base));
    if io.openFails {
      s := new Store.Latch(c, f, j, IO_FAILED);
      return;
    }
    f.Create();
    if 0 != |f.bytes| {
      if io.truncateFails {
        s := new Store.Latch(c, f, j, IO_FAILED);
        return;
      }
      f.Truncate(0);
    }
    var line := c.encodeHeader(NewHeader(startedAt, base));
    if line.None? {
      s := new Store.Latch(c, f, j, IO_FAILED);
      return;
    }
    var ok := f.Write(line.value, io.header);
    if ok {
      f.SyncDirectory(io.dirSynced);
    }
    if !ok || !io.dirSynced {
      s := new Store.Latch(c, f, j, IO_FAILED);
      return;
    }
    s := new Store.Hold(c, f, j);
  }
}
