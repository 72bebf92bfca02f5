/** Journal lines of agent jobs: their fields, the bounded stored form, and what makes one acceptable. */
module JobRecord {
  import opened Options
  import opened Framing

  const MAX_TITLE_LEN: nat := 120
  const MAX_REASON_LEN: nat := 64
  const RECORD_VERSION := 1

  datatype Kind = Header | Started | Finished | StartFailed | OtherKind(tag: string)

  /** An instant with the offset it is written in; instant 0 stands for the zero time. */
  datatype Time = Time(instant: int, offset: int)

  predicate IsZero(t: Time)
  {
    t.instant == 0
  }

  function UTC(t: Time): Time
  {
    t.(offset := 0)
  }

  datatype Segment = Segment(runStartedAt: Time, baseMS: int, offsetMS: int)

  /** Who a job belongs to; other stands for the identity fields nothing below reads. */
  datatype Labels = Labels(
    agentID: string,
    agentKind: string,
    stageID: string,
    rootStageID: string,
    taskID: string,
    channel: string,
    model: string,
    other: string)

  datatype Record = Record(
    kind: Kind,
    jobID: string,
    labels: Labels,
    title: string,
    at: Time,
    segment: Segment,
    outcome: string,
    durationMS: int,
    reason: seq<Byte>)

  datatype HeaderLine = HeaderLine(kind: Kind, version: int, recordingStartedAt: Time, baseOffsetMS: int)

  const VALID_OUTCOMES: set<string> :=
    {"ok", "error", "interrupted", "idle_timeout", "usage_limit", "cancelled", "yielded"}

  // ----- Stored form -----

  /** A byte that starts a rune in UTF-8 (RFC 3629, section 3). */
  predicate RuneStart(b: Byte)
  {
    b < 0x80 || b >= 0xC0
  }

  function CutPoint(s: seq<Byte>, cut: nat): (c: nat)
    requires cut < |s|
    ensures c <= cut && (c == 0 || RuneStart(s[c]))
    ensures forall k :: c < k <= cut ==> !RuneStart(s[k])
  {
    if cut > 0 && !RuneStart(s[cut]) then CutPoint(s, cut - 1) else cut
  }

  function ClippedBytes(s: seq<Byte>, limit: nat): seq<Byte>
  {
    if |s| <= limit then s else s[..CutPoint(s, limit)]
  }

  method ClipBytes(s: seq<Byte>, limit: nat) returns (r: seq<Byte>)
    ensures r == ClippedBytes(s, limit)
  {
    if |s| <= limit {
      return s;
    }
    var cut := limit;
    while cut > 0 && !RuneStart(s[cut])
      invariant 0 <= cut <= limit && CutPoint(s, cut) == CutPoint(s, limit)
    {
      cut := cut - 1;
    }
    r := s[..cut];
  }

  /** One encoded rune: a starting byte and its continuations. */
  predicate IsRune(bs: seq<Byte>)
  {
    bs != [] && RuneStart(bs[0]) && forall k :: 0 < k < |bs| ==> !RuneStart(bs[k])
  }

  function Text(runes: seq<seq<Byte>>): seq<Byte>
  {
    if runes == [] then [] else Text(runes[..|runes| - 1]) + runes[|runes| - 1]
  }

  lemma {:induction false} TextPrefix(runes: seq<seq<Byte>>, n: nat)
    requires n <= |runes|
    ensures Text(runes[..n]) <= Text(runes)
  {
    if n == |runes| {
      assert runes[..n] == runes;
    } else {
      var front := runes[..|runes| - 1];
      TextPrefix(front, n);
      assert front[..n] == runes[..n];
    }
  }

  /** Clipping keeps whole runes, as many as fit the limit: a rune is never split. */
  lemma {:induction false} ClipKeepsRunes(runes: seq<seq<Byte>>, limit: nat) returns (n: nat)
    requires forall i :: 0 <= i < |runes| ==> IsRune(runes[i])
    ensures n <= |runes| && ClippedBytes(Text(runes), limit) == Text(runes[..n])
    ensures |Text(runes[..n])| <= limit
    ensures n < |runes| ==> limit < |Text(runes[..n + 1])|
  {
    if |Text(runes)| <= limit {
      n := |runes|;
      assert runes[..n] == runes;
    } else {
      var m := |runes| - 1;
      var front, last := runes[..m], runes[m];
      if |Text(front)| <= limit {
        n := m;
        var c := CutPoint(Text(runes), limit);
        assert Text(runes)[|Text(front)|] == last[0];
        assert forall k :: |Text(front)| < k < |Text(runes)| ==> Text(runes)[k] == last[k - |Text(front)|];
        assert Text(runes)[..|Text(front)|] == Text(front);
        assert runes[..n + 1] == runes;
      } else {
        n := ClipKeepsRunes(front, limit);
        assert front[..n] == runes[..n];
        if n < m { assert front[..n + 1] == runes[..n + 1]; }
        CutPointLocal(Text(front), last, limit);
        assert front[..m] == front;
      }
    }
  }

  lemma {:induction false} CutPointLocal(s: seq<Byte>, more: seq<Byte>, cut: nat)
    requires cut < |s|
    ensures CutPoint(s + more, cut) == CutPoint(s, cut)
    ensures (s + more)[..CutPoint(s, cut)] == s[..CutPoint(s, cut)]
  {
    assert (s + more)[cut] == s[cut];
    if cut > 0 && !RuneStart(s[cut]) {
      CutPointLocal(s, more, cut - 1);
    }
  }

  function ClippedRunes(s: string, limit: nat): string
  {
    if |s| <= limit then s else s[..limit]
  }

  /** The record in its stored form: UTC times and bounded text. */
  function Normalized(r: Record): Record
  {
    r.(at := UTC(r.at),
       segment := r.segment.(runStartedAt := UTC(r.segment.runStartedAt)),
       title := ClippedRunes(r.title, MAX_TITLE_LEN),
       reason := ClippedBytes(r.reason, MAX_REASON_LEN))
  }

  /** Storing a stored record changes nothing, so a replayed line is the line that was written. */
  lemma NormalizedIdempotent(r: Record)
    ensures Normalized(Normalized(r)) == Normalized(r)
  {
  }

  predicate SameInstant(a: Time, b: Time)
  {
    a.offset == 0 && a.instant == b.instant
  }

  /** The longest prefix of whole runes within the limit. */
  predicate CutAtRune(part: seq<Byte>, s: seq<Byte>, limit: nat)
  {
    && part <= s && |part| <= limit
    && (|s| <= limit ==> part == s)
    && (|s| > limit ==>
          && (part == [] || RuneStart(s[|part|]))
          && forall k :: |part| < k <= limit ==> !RuneStart(s[k]))
  }

  /** q is r as it is kept: the same job, outcome and measures at the same instants, written in UTC, with its two texts
      cut to their limits. */
  predicate KeptAs(r: Record, q: Record)
  {
    && q.kind == r.kind && q.jobID == r.jobID && q.labels == r.labels
    && q.outcome == r.outcome && q.durationMS == r.durationMS
    && SameInstant(q.at, r.at)
    && SameInstant(q.segment.runStartedAt, r.segment.runStartedAt)
    && q.segment.baseMS == r.segment.baseMS && q.segment.offsetMS == r.segment.offsetMS
    && q.title <= r.title && |q.title| == (if |r.title| < 120 then |r.title| else 120)
    && CutAtRune(q.reason, r.reason, 64)
  }

  lemma ClippedExact(s: seq<Byte>, limit: nat, part: seq<Byte>)
    ensures CutAtRune(part, s, limit) <==> part == ClippedBytes(s, limit)
  {
    if |s| > limit && CutAtRune(part, s, limit) {
      var c := CutPoint(s, limit);
      assert |part| == c;
    }
  }

  /** Main result: the stored form is exactly this. */
  lemma KeptAsExact(r: Record, q: Record)
    ensures KeptAs(r, q) <==> q == Normalized(r)
  {
    ClippedExact(r.reason, 64, q.reason);
    if KeptAs(r, q) {
      assert q.title == r.title[..|q.title|];
      assert q.at == UTC(r.at) && q.segment == Normalized(r).segment;
    }
  }

  predicate Acceptable(r: Record)
  {
    && r.jobID != ""
    && !IsZero(r.at)
    && match r.kind
       case Started => true
       case Finished => r.outcome in VALID_OUTCOMES && r.durationMS >= 0
       case StartFailed => r.reason != []
       case _ => false
  }

  // ----- Lines -----

  const NEWLINE: Byte := 10

  predicate IsSpace(b: Byte)
  {
    9 <= b <= 13 || b == 32
  }

  predicate Blank(line: seq<Byte>)
  {
    forall k :: 0 <= k < |line| ==> IsSpace(line[k])
  }

  /** How records and headers are written as lines and read back; None is an encoding or decoding error. */
  datatype Codec = Codec(
    encode: Record -> Option<seq<Byte>>,
    decode: seq<Byte> -> Option<Record>,
    encodeHeader: HeaderLine -> Option<seq<Byte>>,
    decodeHeader: seq<Byte> -> Option<HeaderLine>)

  predicate CleanLine(line: seq<Byte>)
  {
    Free(line, NEWLINE) && !Blank(line)
  }

  /** What is asked of the line format: a stored record comes back from its own line, which holds no newline. */
  ghost predicate Faithful(c: Codec)
  {
    && (forall r :: c.encode(r).Some? && Normalized(r) == r ==>
          CleanLine(c.encode(r).value) && c.decode(c.encode(r).value) == Some(r))
    && (forall h :: c.encodeHeader(h).Some? && UTC(h.recordingStartedAt) == h.recordingStartedAt ==>
          CleanLine(c.encodeHeader(h).value) && c.decodeHeader(c.encodeHeader(h).value) == Some(h))
  }
}
