/** Splitting literal text into Telegram messages, whose length is counted in UTF-16 code units
    (RFC 2781, section 2.1). A text is a sequence of Unicode scalar values. */
module MessageSplit {

  const TEXT_LIMIT: nat := 4096
  const BODY_LIMIT: nat := 3840

  // ----- Code units -----

  function RuneUnits(c: char): (n: nat)
    ensures 1 <= n <= 2
  {
    if c as int > 0xFFFF then 2 else 1
  }

  function Units(s: string): nat
  {
    if s == [] then 0 else Units(s[..|s| - 1]) + RuneUnits(s[|s| - 1])
  }

  /** The UTF-16 form of a character: itself, or a surrogate pair. */
  function Encode(c: char): seq<int>
  {
    var n := c as int;
    if n > 0xFFFF then [0xD800 + (n - 0x10000) / 0x400, 0xDC00 + (n - 0x10000) % 0x400] else [n]
  }

  function EncodeAll(s: string): seq<int>
  {
    if s == [] then [] else EncodeAll(s[..|s| - 1]) + Encode(s[|s| - 1])
  }

  lemma {:induction false} UnitsCount(s: string)
    ensures |EncodeAll(s)| == Units(s)
  {
    if s != [] { UnitsCount(s[..|s| - 1]); }
  }

  lemma {:induction false} UnitsAppend(a: string, b: string)
    ensures Units(a + b) == Units(a) + Units(b)
    ensures EncodeAll(a + b) == EncodeAll(a) + EncodeAll(b)
  {
    if b == [] {
      assert a + b == a;
    } else {
      assert (a + b)[..|a + b| - 1] == a + b[..|b| - 1];
      UnitsAppend(a, b[..|b| - 1]);
    }
  }

  lemma UnitsPush(s: string, c: char)
    ensures Units(s + [c]) == Units(s) + RuneUnits(c)
  {
    assert (s + [c])[..|s|] == s;
  }

  predicate HighSurrogate(u: int)
  {
    0xD800 <= u < 0xDC00
  }

  predicate LowSurrogate(u: int)
  {
    0xDC00 <= u < 0xE000
  }

  /** A unit sequence in which every surrogate has its other half beside it. */
  ghost predicate WholePairs(us: seq<int>)
  {
    && (forall i :: 0 <= i < |us| && HighSurrogate(us[i]) ==> i + 1 < |us| && LowSurrogate(us[i + 1]))
    && (forall i :: 0 <= i < |us| && LowSurrogate(us[i]) ==> i > 0 && HighSurrogate(us[i - 1]))
  }

  /** The encoding of any text, so of any part of one, splits no surrogate pair. */
  lemma {:induction false} EncodedWhole(s: string)
    ensures WholePairs(EncodeAll(s))
  {
    if s != [] {
      EncodedWhole(s[..|s| - 1]);
      var n := s[|s| - 1] as int;
      if n > 0xFFFF {
        assert 0 <= (n - 0x10000) / 0x400 < 0x400;
      }
    }
  }

  // ----- Prefixes -----

  /** How many characters fit into the limit. */
  function Fitting(s: string, limit: int, k: nat): (n: nat)
    requires k <= |s|
    ensures k <= n <= |s|
    decreases |s| - k
  {
    if k == |s| || Units(s[..k + 1]) > limit then k else Fitting(s, limit, k + 1)
  }

  /** The longest prefix within the limit, and the rest. */
  method TextPrefix(s: string, limit: int) returns (part: string, rest: string)
    ensures part + rest == s
    ensures limit >= 0 ==> Units(part) <= limit
    ensures limit <= 0 ==> part == ""
    ensures rest != [] && limit > 0 ==> Units(part) + RuneUnits(rest[0]) > limit
  {
    if limit <= 0 {
      return "", s;
    }
    var used := 0;
    for i := 0 to |s|
      invariant used == Units(s[..i]) && used <= limit
    {
      var units := if s[i] as int > 0xFFFF then 2 else 1;
      assert s[..i + 1] == s[..i] + [s[i]];
      UnitsPush(s[..i], s[i]);
      if used + units > limit {
        assert s[..i] + s[i..] == s;
        return s[..i], s[i..];
      }
      used := used + units;
    }
    assert s[..|s|] == s && s + "" == s;
    part, rest := s, "";
  }

  const CUT_MARK := "… [текст сокращён]"

  lemma Marked(part: string, mark: string)
    ensures (part + mark)[|part|..] == mark && (part + mark)[..|part|] == part && |part + mark| - |mark| == |part|
  {
  }

  /** Text over a limit is cut and marked. The result is within the limit unless the limit has no room for the mark. */
  method ShortText(s: string, limit: int) returns (r: string)
    ensures Units(s) <= limit ==> r == s
    ensures Units(s) > limit ==> |r| >= |CUT_MARK| && r[|r| - |CUT_MARK|..] == CUT_MARK && r[..|r| - |CUT_MARK|] <= s
    ensures Units(r) <= limit <==> Units(s) <= limit || Units(CUT_MARK) <= limit
  {
    if Units(s) <= limit {
      return s;
    }
    var part, rest := TextPrefix(s, limit - Units(CUT_MARK));
    UnitsAppend(part, CUT_MARK);
    r := part + CUT_MARK;
    Marked(part, CUT_MARK);
  }

  function Concat(parts: seq<string>): string
  {
    if parts == [] then "" else Concat(parts[..|parts| - 1]) + parts[|parts| - 1]
  }

  lemma ConcatPush(parts: seq<string>, part: string)
    ensures Concat(parts + [part]) == Concat(parts) + part
  {
    assert (parts + [part])[..|parts|] == parts;
  }

  predicate AllWithin(parts: seq<string>, limit: nat)
  {
    forall i :: 0 <= i < |parts| ==> Units(parts[i]) <= limit
  }

  /** No chunk could have taken the first character of the next one as well. */
  predicate Packed(parts: seq<string>, limit: nat)
  {
    forall i :: 0 < i < |parts| ==> NoRoomFor(parts[i - 1], parts[i], limit)
  }

  predicate NoRoomFor(part: string, next: string, limit: nat)
  {
    next != "" && Units(part) + RuneUnits(next[0]) > limit
  }

  // ----- Chunks -----

  /** Main result: the chunks give back the exact source, each is within the limit, and none is shorter than it must be. */
  method PlanChunks(source: string) returns (chunks: seq<string>)
    ensures Concat(chunks) == source && AllWithin(chunks, BODY_LIMIT) && Packed(chunks, BODY_LIMIT)
    ensures 1 <= |chunks| && (source != "" ==> |chunks| <= |source|)
  {
    if source == "" {
      assert Concat([]) == "" && [""][..0] == [];
      return [""];
    }
    chunks := [];
    var left := source;
    while left != ""
      invariant Concat(chunks) + left == source
      invariant AllWithin(chunks, BODY_LIMIT) && Packed(chunks, BODY_LIMIT)
      invariant chunks != [] && left != "" ==> NoRoomFor(chunks[|chunks| - 1], left, BODY_LIMIT)
      invariant |chunks| + |left| <= |source| && (chunks == [] ==> left == source)
      decreases |left|
    {
      var part, rest := TextPrefix(left, BODY_LIMIT);
      SomethingFits(left, part, rest);
      ConcatPush(chunks, part);
      assert Concat(chunks) + left == (Concat(chunks) + part) + rest;
      assert chunks != [] ==> NoRoomFor(chunks[|chunks| - 1], part, BODY_LIMIT);
      PushChunk(chunks, part);
      chunks := chunks + [part];
      left := rest;
    }
    assert Concat(chunks) + "" == Concat(chunks);
  }

  lemma SomethingFits(s: string, part: string, rest: string)
    requires s != "" && part + rest == s
    requires rest != [] ==> Units(part) + RuneUnits(rest[0]) > BODY_LIMIT
    ensures part != "" && part[0] == s[0]
  {
    assert Units("") == 0;
  }

  lemma PushChunk(chunks: seq<string>, part: string)
    requires AllWithin(chunks, BODY_LIMIT) && Packed(chunks, BODY_LIMIT) && Units(part) <= BODY_LIMIT
    requires chunks != [] ==> NoRoomFor(chunks[|chunks| - 1], part, BODY_LIMIT)
    ensures AllWithin(chunks + [part], BODY_LIMIT) && Packed(chunks + [part], BODY_LIMIT)
  {
  }

  class View {
    var parts: seq<string>

    constructor ()
      ensures parts == [""]
    {
      parts := [""];
    }

    /** Main result: appending keeps the literal text in order, starts with what room the last part has, and leaves
        every part it writes to within the limit. */
    method AppendText(source: string)
      requires parts != []
      modifies this
      ensures Grown(old(parts), parts) && Concat(parts) == Concat(old(parts)) + source
      ensures AllWithin(old(parts), TEXT_LIMIT) ==> AllWithin(parts, TEXT_LIMIT)
    {
      var left := source;
      while left != ""
        invariant Placed(old(parts), parts, left, source)
        decreases |left|, if Units(parts[|parts| - 1]) == 0 then 0 else 1
      {
        var last := parts[|parts| - 1];
        var part, rest := TextPrefix(left, TEXT_LIMIT - Units(last));
        if part == "" {
          NewPart(old(parts), parts, left, source);
          parts := parts + [""];
          continue;
        }
        PartFilled(old(parts), parts, part, rest, source);
        parts := Extended(parts, part);
        left := rest;
      }
      assert Concat(parts) + "" == Concat(parts);
    }
  }

  /** What is in the parts and what is left make up the earlier parts and the source. */
  predicate Placed(before: seq<string>, parts: seq<string>, left: string, source: string)
  {
    && Grown(before, parts)
    && Concat(parts) + left == Concat(before) + source
    && (AllWithin(before, TEXT_LIMIT) ==> AllWithin(parts, TEXT_LIMIT))
  }

  lemma NewPart(before: seq<string>, parts: seq<string>, left: string, source: string)
    requires Placed(before, parts, left, source)
    ensures Placed(before, parts + [""], left, source) && Units("") == 0
  {
    ConcatPush(parts, "");
    assert Concat(parts) + "" == Concat(parts);
  }

  lemma PartFilled(before: seq<string>, parts: seq<string>, part: string, rest: string, source: string)
    requires Placed(before, parts, part + rest, source)
    requires Units(parts[|parts| - 1]) <= TEXT_LIMIT ==> Units(parts[|parts| - 1]) + Units(part) <= TEXT_LIMIT
    ensures Placed(before, Extended(parts, part), rest, source)
  {
    assert (Concat(parts) + part) + rest == Concat(parts) + (part + rest);
  }

  function Extended(parts: seq<string>, part: string): (after: seq<string>)
    requires parts != []
    ensures Concat(after) == Concat(parts) + part && |after| == |parts|
    ensures Units(after[|after| - 1]) == Units(parts[|parts| - 1]) + Units(part)
    ensures forall i :: 0 <= i < |parts| - 1 ==> after[i] == parts[i]
    ensures parts[|parts| - 1] <= after[|after| - 1]
  {
    var front, last := parts[..|parts| - 1], parts[|parts| - 1];
    assert parts == front + [last];
    LastExtended(front, last, part);
    UnitsAppend(last, part);
    front + [last + part]
  }

  /** Earlier parts stay, the last one is continued, and more may follow. */
  predicate Grown(before: seq<string>, after: seq<string>)
  {
    && 0 < |before| <= |after|
    && before[|before| - 1] <= after[|before| - 1]
    && forall i :: 0 <= i < |before| - 1 ==> after[i] == before[i]
  }

  lemma LastExtended(front: seq<string>, last: string, part: string)
    ensures Concat(front + [last + part]) == Concat(front + [last]) + part
  {
    ConcatPush(front, last);
    ConcatPush(front, last + part);
    assert Concat(front) + (last + part) == (Concat(front) + last) + part;
  }

  // ----- Numbered plan messages -----

  function Decimal(n: nat): string
  {
    if n < 10 then [['0', '1', '2', '3', '4', '5', '6', '7', '8', '9'][n]] else Decimal(n / 10) + Decimal(n % 10)
  }

  function Pow10(k: nat): nat
  {
    if k == 0 then 1 else 10 * Pow10(k - 1)
  }

  lemma {:induction false} DecimalUnits(n: nat, k: nat)
    requires n < Pow10(k) && k >= 1
    ensures Units(Decimal(n)) <= k
  {
    DecimalExact(n);
    if n < 10 {
      PlainUnits(Decimal(n));
    } else {
      DecimalUnits(n / 10, k - 1);
      DecimalExact(n % 10);
      UnitsAppend(Decimal(n / 10), Decimal(n % 10));
      PlainUnits(Decimal(n % 10));
    }
  }

  function PlanIntro(stage: string, run: string): string
  {
    "План · " + stage + " · " + run + "\nЧасть "
  }

  const DRAFT_INTRO := "Черновик правки · часть "

  function PartNumber(i: nat, n: nat): string
  {
    Decimal(i) + "/" + Decimal(n) + "\n\n"
  }

  /** Every chunk under its numbered header. */
  function Numbered(intro: string, chunks: seq<string>): seq<string>
  {
    seq(|chunks|, i requires 0 <= i < |chunks| => intro + PartNumber(i + 1, |chunks|) + chunks[i])
  }

  function NumberOf(digits: string): int
  {
    if digits == "" then 0 else NumberOf(digits[..|digits| - 1]) * 10 + (digits[|digits| - 1] as int - '0' as int)
  }

  lemma {:induction false} DecimalExact(n: nat)
    ensures NumberOf(Decimal(n)) == n && Decimal(n) != ""
    ensures forall k :: 0 <= k < |Decimal(n)| ==> '0' <= Decimal(n)[k] <= '9'
  {
    if n >= 10 {
      DecimalExact(n / 10);
      DecimalExact(n % 10);
      assert |Decimal(n % 10)| == 1;
      assert Decimal(n)[..|Decimal(n)| - 1] == Decimal(n / 10);
    } else {
      assert Decimal(n)[..0] == "";
    }
  }

  /** The text says in digits which part of how many it is. */
  ghost predicate SaysPart(header: string, part: nat, all: nat)
  {
    exists a, b :: header == a + "/" + b + "\n\n" && NumberOf(a) == part && NumberOf(b) == all
  }

  lemma PartNumberExact(part: nat, all: nat)
    ensures SaysPart(PartNumber(part, all), part, all)
  {
    DecimalExact(part);
    DecimalExact(all);
    assert PartNumber(part, all) == Decimal(part) + "/" + Decimal(all) + "\n\n";
  }

  /** Message i begins with the intro, says that it is part i + 1 of all, and ends with its chunk. */
  lemma NumberedExact(intro: string, chunks: seq<string>, i: nat)
    requires i < |chunks|
    ensures |Numbered(intro, chunks)| == |chunks|
    ensures exists header :: Numbered(intro, chunks)[i] == intro + header + chunks[i] && SaysPart(header, i + 1, |chunks|)
  {
    PartNumberExact(i + 1, |chunks|);
    var header := PartNumber(i + 1, |chunks|);
    assert Numbered(intro, chunks)[i] == intro + header + chunks[i];
    assert SaysPart(header, i + 1, |chunks|);
  }

  /** A text without supplementary characters has as many units as characters. */
  lemma {:induction false} PlainUnits(s: string)
    requires forall i :: 0 <= i < |s| ==> s[i] as int <= 0xFFFF
    ensures Units(s) == |s|
  {
    if s != [] { PlainUnits(s[..|s| - 1]); }
  }

  /** The reserved space holds any header, as long as part numbers have at most 18 digits. */
  lemma HeaderFits(stage: string, run: string, i: nat, n: nat)
    requires Units(stage) <= 120 && Units(run) <= 80 && i <= n < Pow10(18)
    ensures Units(PlanIntro(stage, run) + PartNumber(i, n)) <= TEXT_LIMIT - BODY_LIMIT
    ensures Units(DRAFT_INTRO + PartNumber(i, n)) <= TEXT_LIMIT - BODY_LIMIT
  {
    IntroUnits(stage, run);
    DraftUnits();
    PartUnits(i, n);
    HeadUnits(PlanIntro(stage, run), PartNumber(i, n), 217);
    HeadUnits(DRAFT_INTRO, PartNumber(i, n), 217);
  }

  lemma NumberedFits(intro: string, chunks: seq<string>)
    requires Units(intro) <= 217 && AllWithin(chunks, BODY_LIMIT) && |chunks| < Pow10(18)
    ensures AllWithin(Numbered(intro, chunks), TEXT_LIMIT)
  {
    forall i | 0 <= i < |chunks|
      ensures Units(Numbered(intro, chunks)[i]) <= TEXT_LIMIT
    {
      PartUnits(i + 1, |chunks|);
      UnitsAppend(intro, PartNumber(i + 1, |chunks|));
      UnitsAppend(intro + PartNumber(i + 1, |chunks|), chunks[i]);
    }
  }

  lemma DraftUnits()
    ensures Units(DRAFT_INTRO) <= 217
  {
    PlainUnits(DRAFT_INTRO);
  }

  lemma HeadUnits(intro: string, part: string, most: nat)
    requires Units(intro) <= most && Units(part) <= 39
    ensures Units(intro + part) <= most + 39
  {
    UnitsAppend(intro, part);
  }

  lemma IntroUnits(stage: string, run: string)
    ensures Units(PlanIntro(stage, run)) == Units(stage) + Units(run) + 17
  {
    var a, b, c := "План · ", " · ", "\nЧасть ";
    PlainUnits(a);
    PlainUnits(b);
    PlainUnits(c);
    UnitsAppend(a, stage);
    UnitsAppend(a + stage, b);
    UnitsAppend(a + stage + b, run);
    UnitsAppend(a + stage + b + run, c);
  }

  lemma PartUnits(i: nat, n: nat)
    requires i <= n < Pow10(18)
    ensures Units(PartNumber(i, n)) <= 39
  {
    DecimalUnits(i, 18);
    DecimalUnits(n, 18);
    var d, e := "/", "\n\n";
    PlainUnits(d);
    PlainUnits(e);
    UnitsAppend(Decimal(i), d);
    UnitsAppend(Decimal(i) + d, Decimal(n));
    UnitsAppend(Decimal(i) + d + Decimal(n), e);
  }

  method NumberedMessages(intro: string, chunks: seq<string>) returns (messages: seq<string>)
    ensures messages == Numbered(intro, chunks)
  {
    messages := [];
    for i := 0 to |chunks|
      invariant messages == Numbered(intro, chunks)[..i]
    {
      messages := messages + [intro + PartNumber(i + 1, |chunks|) + chunks[i]];
    }
  }

  /** The messages of a plan: the draft of a revision, if there is one, and then the plan, each cut into numbered parts
      that give back the exact source. */
  method RenderPlan(stageName: string, runName: string, plan: string, draft: string)
    returns (messages: seq<string>, stage: string, run: string, drafts: seq<string>, chunks: seq<string>)
    ensures messages == Numbered(DRAFT_INTRO, drafts) + Numbered(PlanIntro(stage, run), chunks)
    ensures Concat(chunks) == plan && Concat(drafts) == draft && (draft == "" ==> drafts == [])
    ensures Units(stage) <= 120 && (Units(stageName) <= 120 ==> stage == stageName)
    ensures Units(run) <= 80 && (Units(runName) <= 80 ==> run == runName)
    ensures |plan| < Pow10(18) && |draft| < Pow10(18) ==> AllWithin(messages, TEXT_LIMIT)
  {
    PlainUnits(CUT_MARK);
    stage := ShortText(stageName, 120);
    run := ShortText(runName, 80);
    var planMessages, draftMessages;
    planMessages, chunks := PlanMessages(stage, run, plan);
    draftMessages, drafts := DraftMessages(draft);
    messages := draftMessages + planMessages;
  }

  method PlanMessages(stage: string, run: string, plan: string) returns (messages: seq<string>, chunks: seq<string>)
    requires Units(stage) <= 120 && Units(run) <= 80
    ensures messages == Numbered(PlanIntro(stage, run), chunks) && Concat(chunks) == plan
    ensures |plan| < Pow10(18) ==> AllWithin(messages, TEXT_LIMIT)
  {
    chunks := PlanChunks(plan);
    messages := NumberedMessages(PlanIntro(stage, run), chunks);
    OneBelow(18);
    IntroUnits(stage, run);
    if |plan| < Pow10(18) {
      NumberedFits(PlanIntro(stage, run), chunks);
    }
  }

  method DraftMessages(draft: string) returns (messages: seq<string>, drafts: seq<string>)
    ensures messages == Numbered(DRAFT_INTRO, drafts) && Concat(drafts) == draft && (draft == "" ==> drafts == [])
    ensures |draft| < Pow10(18) ==> AllWithin(messages, TEXT_LIMIT)
  {
    if draft == "" {
      return [], [];
    }
    drafts := PlanChunks(draft);
    messages := NumberedMessages(DRAFT_INTRO, drafts);
    PlainUnits(DRAFT_INTRO);
    if |draft| < Pow10(18) {
      NumberedFits(DRAFT_INTRO, drafts);
    }
  }

  lemma OneBelow(k: nat)
    requires k > 0
    ensures 1 < Pow10(k)
  {
    if k > 1 { OneBelow(k - 1); }
  }
}
