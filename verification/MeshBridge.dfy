// The bridge between the agent mesh and the Assistant: it works through the Assistant's inbox in
// order, starts at most one turn at a time, and finds its place again from two journals.
module MeshBridge {
  import opened Options

  const SIDE: string := "assistant"
  const PAGE: nat := 100
  const MAX_SEQ: nat := 0xFFFF_FFFF_FFFF_FFFF

  // ---------------------------------------------------------------------
  // The mesh: messages in the order of their numbers, and receipts of the Assistant's messages
  // ---------------------------------------------------------------------

  datatype Msg = Msg(
    id: string,
    num: nat,
    thread: string,
    sender: string,
    inbox: bool,
    inReplyTo: Option<string>,
    auto: bool,
    body: string,
    kind: Kind,
    recipients: seq<string>)

  datatype Kind = Reply | Result | OtherKind

  datatype Receipt = Accepted | Delivered | Undeliverable

  // A reply the bridge sent, with the message it is for.
  datatype Own = Own(source: Msg, reply: Msg)

  // `own` keeps what bridges sent so far, and `errors` counts the calls of theirs that failed.
  datatype Mesh = Mesh(log: seq<Msg>, receipts: map<string, Receipt>, own: seq<Own>, errors: nat)

  predicate Ordered(log: seq<Msg>) {
    && (forall i :: 0 <= i < |log| ==> 0 < log[i].num <= MAX_SEQ && log[i].id != "")
    && (forall i, j {:trigger Precedes(log, i, j)} :: 0 <= i < j < |log| ==> Precedes(log, i, j))
  }

  predicate Precedes(log: seq<Msg>, i: nat, j: nat)
    requires i < |log| && j < |log|
  {
    log[i].num < log[j].num && log[i].id != log[j].id
  }

  predicate Waits(s: Mesh, id: string) {
    id in s.receipts && s.receipts[id] == Accepted
  }

  predicate Failed(s: Mesh, id: string) {
    id in s.receipts && s.receipts[id] == Undeliverable
  }

  predicate IsReply(r: Msg, m: Msg) {
    r.sender == SIDE && r.thread == m.thread && r.inReplyTo == Some(m.id)
  }

  // The bridge's reply is there, and the Assistant gave none before it.
  predicate First(s: Mesh, o: Own) {
    && o.source in s.log && o.reply in s.log && IsReply(o.reply, o.source)
    && forall x :: x in s.log && IsReply(x, o.source) ==> o.reply.num <= x.num
  }

  predicate OwnFirst(s: Mesh) {
    forall o {:trigger First(s, o)} :: o in s.own ==> First(s, o)
  }

  predicate WellFormed(s: Mesh) {
    Ordered(s.log) && OwnFirst(s)
  }

  predicate Answered(s: Mesh, m: Msg) {
    exists r :: r in s.log && IsReply(r, m)
  }

  // Nothing waits for the source any more, unless it was answered.
  predicate Released(s: Mesh, m: Msg) {
    !Waits(s, m.id) || Answered(s, m)
  }

  // What the mesh may become: messages are only added, a failure mark stays, and no receipt of
  // an old message starts waiting again.
  predicate Later(a: Mesh, b: Mesh) {
    && a.log <= b.log
    && WellFormed(b)
    && a.own <= b.own && a.errors <= b.errors
    && (forall id :: id in a.receipts && a.receipts[id] == Undeliverable ==> id in b.receipts && b.receipts[id] == Undeliverable)
    && (forall m {:trigger Waits(b, m.id)} :: m in a.log && Waits(b, m.id) ==> Waits(a, m.id))
  }

  // ---------------------------------------------------------------------
  // The Assistant's journal
  // ---------------------------------------------------------------------

  // What a turn is asked, and on whose behalf.
  datatype Ask = Ask(body: string, thread: string, sender: string)

  datatype SideEvent =
    | TurnAccepted(turn: string, client: string, source: string, ask: Ask)
    | AssistantText(turn: string, text: string)
    | TurnCompleted(turn: string)
    | TurnFailed(turn: string)
    | TurnInterrupted(turn: string)
    | OtherEvent

  datatype Outcome = Outcome(completed: bool, text: string)

  predicate Ends(e: SideEvent) {
    e.TurnCompleted? || e.TurnFailed? || e.TurnInterrupted?
  }

  predicate Starts(e: SideEvent, source: string) {
    e.TurnAccepted? && e.source == source && source != ""
  }

  // A turn for `source` was accepted and has ended.
  ghost predicate Finished(events: seq<SideEvent>, source: string) {
    exists i, j :: 0 <= i < |events| && 0 <= j < |events| && Starts(events[i], source)
      && Ends(events[j]) && events[j].turn == events[i].turn
  }

  function TurnsOf(events: seq<SideEvent>): map<string, string> {
    if events == [] then map[]
    else
      var e, r := events[|events| - 1], TurnsOf(events[..|events| - 1]);
      if e.TurnAccepted? && e.source != "" then r[e.source := e.turn] else r
  }

  function TextsOf(events: seq<SideEvent>): map<string, string> {
    if events == [] then map[]
    else
      var e, r := events[|events| - 1], TextsOf(events[..|events| - 1]);
      if e.AssistantText? then r[e.turn := e.text] else r
  }

  function OutcomesOf(events: seq<SideEvent>): map<string, Outcome> {
    if events == [] then map[]
    else
      var e, r := events[|events| - 1], OutcomesOf(events[..|events| - 1]);
      var texts := TextsOf(events[..|events| - 1]);
      match e
      case TurnCompleted(t) => r[t := Outcome(true, if t in texts then texts[t] else "")]
      case TurnFailed(t) => r[t := Outcome(false, "")]
      case TurnInterrupted(t) => r[t := Outcome(false, "")]
      case _ => r
  }

  // One pass over the journal.
  method SideMeshTurns(events: seq<SideEvent>) returns (accepted: map<string, string>, terminal: map<string, Outcome>)
    ensures accepted == TurnsOf(events)
    ensures terminal == OutcomesOf(events)
  {
    accepted, terminal := map[], map[];
    var lastText: map<string, string> := map[];
    for i := 0 to |events|
      invariant accepted == TurnsOf(events[..i])
      invariant lastText == TextsOf(events[..i])
      invariant terminal == OutcomesOf(events[..i])
    {
      assert events[..i + 1][..i] == events[..i];
      match events[i]
      case TurnAccepted(turn, _, source, _) =>
        if source != "" {
          accepted := accepted[source := turn];
        }
      case AssistantText(turn, text) => lastText := lastText[turn := text];
      case TurnCompleted(turn) => terminal := terminal[turn := Outcome(true, if turn in lastText then lastText[turn] else "")];
      case TurnFailed(turn) => terminal := terminal[turn := Outcome(false, "")];
      case TurnInterrupted(turn) => terminal := terminal[turn := Outcome(false, "")];
      case OtherEvent =>
    }
    assert events[..|events|] == events;
  }

  predicate LastFor(events: seq<SideEvent>, i: nat, p: SideEvent -> bool) {
    i < |events| && p(events[i]) && forall j :: i < j < |events| ==> !p(events[j])
  }

  // A source has a turn exactly when the journal accepted one, and it is the last one accepted.
  lemma {:induction false} TurnsExact(events: seq<SideEvent>, source: string)
    ensures source in TurnsOf(events) <==> exists i :: 0 <= i < |events| && Starts(events[i], source)
    ensures source in TurnsOf(events) ==>
      exists i: nat :: LastFor(events, i, (e: SideEvent) => Starts(e, source)) && events[i].turn == TurnsOf(events)[source]
  {
    if events != [] {
      var front, k := events[..|events| - 1], |events| - 1;
      TurnsExact(front, source);
      var p := (e: SideEvent) => Starts(e, source);
      if Starts(events[k], source) {
        assert LastFor(events, k, p) && events[k].turn == TurnsOf(events)[source];
      } else if source in TurnsOf(front) {
        var i: nat :| LastFor(front, i, p) && front[i].turn == TurnsOf(front)[source];
        assert LastFor(events, i, p) && events[i].turn == TurnsOf(events)[source];
        assert Starts(events[i], source);
      } else {
        assert forall i :: 0 <= i < k ==> events[i] == front[i];
      }
    }
  }

  // The text of a turn is the last one before it ended; a turn that did not complete has none.
  lemma {:induction false} OutcomesExact(events: seq<SideEvent>, turn: string)
    ensures turn in OutcomesOf(events) <==> exists i :: 0 <= i < |events| && Ends(events[i]) && events[i].turn == turn
    ensures turn in OutcomesOf(events) ==>
      exists i: nat :: LastFor(events, i, (e: SideEvent) => Ends(e) && e.turn == turn)
        && OutcomesOf(events)[turn] == OutcomeAt(events, i)
  {
    if events != [] {
      var front, k := events[..|events| - 1], |events| - 1;
      OutcomesExact(front, turn);
      var p := (e: SideEvent) => Ends(e) && e.turn == turn;
      if p(events[k]) {
        assert LastFor(events, k, p) && OutcomesOf(events)[turn] == OutcomeAt(events, k);
      } else if turn in OutcomesOf(front) {
        var i: nat :| LastFor(front, i, p) && OutcomesOf(front)[turn] == OutcomeAt(front, i);
        assert front[..i] == events[..i];
        assert LastFor(events, i, p) && OutcomesOf(events)[turn] == OutcomeAt(events, i);
        assert Ends(events[i]) && events[i].turn == turn;
      } else {
        assert forall i :: 0 <= i < k ==> events[i] == front[i];
      }
    }
  }

  function OutcomeAt(events: seq<SideEvent>, i: nat): Outcome
    requires i < |events| && Ends(events[i])
  {
    if !events[i].TurnCompleted? then Outcome(false, "")
    else if events[i].turn in TextsOf(events[..i]) then Outcome(true, TextsOf(events[..i])[events[i].turn])
    else Outcome(true, "")
  }

  // ---------------------------------------------------------------------
  // What the two journals and the cursor say together
  // ---------------------------------------------------------------------

  function ClientOf(source: string): string {
    "mesh:" + source
  }

  // Every mesh message has at most one turn.
  predicate OneTurnPerSource(events: seq<SideEvent>) {
    forall i, j {:trigger SourcesDiffer(events, i, j)} :: 0 <= i < j < |events| ==> SourcesDiffer(events, i, j)
  }

  predicate SourcesDiffer(events: seq<SideEvent>, i: nat, j: nat)
    requires i < |events| && j < |events|
  {
    events[i].TurnAccepted? && events[j].TurnAccepted? && events[i].source != "" ==> events[i].source != events[j].source
  }

  predicate ClientsOk(events: seq<SideEvent>) {
    forall e :: e in events && e.TurnAccepted? && e.source != "" ==> e.client == ClientOf(e.source)
  }

  function MeshTurns(events: seq<SideEvent>): nat {
    if events == [] then 0
    else MeshTurns(events[..|events| - 1]) + (if events[|events| - 1].TurnAccepted? && events[|events| - 1].source != "" then 1 else 0)
  }

  // What everybody but the bridge may add to the journal.
  predicate NoSources(events: seq<SideEvent>) {
    forall e :: e in events && e.TurnAccepted? ==> e.source == ""
  }

  predicate Foreign(m: Msg) {
    m.inbox && m.sender != SIDE
  }

  // The durable outcome of a source.
  ghost predicate Settled(s: Mesh, events: seq<SideEvent>, m: Msg) {
    || Failed(s, m.id)
    || Answered(s, m)
    || (m.auto && Finished(events, m.id) && Released(s, m))
  }

  ghost predicate SettledUpTo(s: Mesh, events: seq<SideEvent>, cursor: nat) {
    forall m {:trigger Settled(s, events, m)} :: m in s.log && Foreign(m) && m.num <= cursor ==> Settled(s, events, m)
  }

  // Every foreign message of s0 has its outcome, also without the Assistant's own journal.
  ghost predicate Cleared(s0: Mesh, s: Mesh, events: seq<SideEvent>) {
    forall m {:trigger Settled(s, events, m)} :: m in s0.log && Foreign(m) ==> Settled(s, events, m) && Resolved(s, m)
  }

  // When the turn of a source began, everything before the source in the inbox was settled.
  ghost predicate InOrder(s: Mesh, events: seq<SideEvent>) {
    forall e, m {:trigger Starts(e, m.id), m in s.log} :: e in events && m in s.log && Starts(e, m.id) && m.num > 0 ==> SettledUpTo(s, events, m.num - 1)
  }

  predicate Known(s: Mesh, events: seq<SideEvent>) {
    forall e {:trigger HasSource(s, e)} :: e in events && e.TurnAccepted? && e.source != "" ==> HasSource(s, e)
  }

  predicate HasSource(s: Mesh, e: SideEvent)
    requires e.TurnAccepted?
  {
    exists m :: m in s.log && Foreign(m) && m.id == e.source && e.ask == Ask(m.body, m.thread, m.sender)
  }

  ghost predicate Sound(s: Mesh, events: seq<SideEvent>) {
    WellFormed(s) && OneTurnPerSource(events) && ClientsOk(events) && Known(s, events) && InOrder(s, events)
  }

  // ---------------------------------------------------------------------
  // Nothing is undone by what others do
  // ---------------------------------------------------------------------

  lemma LaterTransitive(a: Mesh, b: Mesh, c: Mesh)
    requires Later(a, b) && Later(b, c)
    ensures Later(a, c)
  {
  }

  lemma SettledStays(a: Mesh, ea: seq<SideEvent>, b: Mesh, eb: seq<SideEvent>, m: Msg)
    requires Later(a, b) && ea <= eb && m in a.log
    requires Settled(a, ea, m)
    ensures Settled(b, eb, m)
  {
    if Answered(a, m) {
      var r :| r in a.log && IsReply(r, m);
      assert r in b.log;
    } else if !Failed(a, m.id) {
      var i, j :| 0 <= i < |ea| && 0 <= j < |ea| && Starts(ea[i], m.id) && Ends(ea[j]) && ea[j].turn == ea[i].turn;
      assert Starts(eb[i], m.id) && Ends(eb[j]) && eb[j].turn == eb[i].turn;
    }
  }

  // Nothing is inserted before a message that is there already.
  lemma NothingBefore(a: Mesh, b: Mesh, m: Msg, x: Msg)
    requires Later(a, b) && m in a.log && x in b.log && x.num <= m.num
    ensures x in a.log
  {
    var i :| 0 <= i < |a.log| && a.log[i] == m;
    var j :| 0 <= j < |b.log| && b.log[j] == x;
    assert b.log[i] == m;
    assert i < j ==> Precedes(b.log, i, j);
    assert a.log[j] == x;
  }

  predicate Reached(log: seq<Msg>, cursor: nat) {
    cursor == 0 || exists m :: m in log && cursor <= m.num
  }

  lemma UpToStays(a: Mesh, ea: seq<SideEvent>, b: Mesh, eb: seq<SideEvent>, cursor: nat)
    requires Later(a, b) && ea <= eb && Reached(a.log, cursor)
    requires SettledUpTo(a, ea, cursor)
    ensures SettledUpTo(b, eb, cursor)
  {
    forall x | x in b.log && Foreign(x) && x.num <= cursor ensures Settled(b, eb, x) {
      var m :| m in a.log && cursor <= m.num;
      NothingBefore(a, b, m, x);
      SettledStays(a, ea, b, eb, x);
    }
  }

  lemma SoundStays(a: Mesh, ea: seq<SideEvent>, b: Mesh, eb: seq<SideEvent>)
    requires Sound(a, ea) && Later(a, b) && ea <= eb && NoSources(eb[|ea|..])
    ensures Sound(b, eb)
  {
    assert eb == ea + eb[|ea|..];
    forall e, m | e in eb && m in b.log && Starts(e, m.id) && m.num > 0 ensures SettledUpTo(b, eb, m.num - 1) {
      assert e in ea;
      assert HasSource(a, e);
      var k :| k in a.log && Foreign(k) && k.id == e.source;
      SameMessage(b.log, k, m);
      UpToStays(a, ea, b, eb, m.num - 1);
    }
    forall i, j | 0 <= i < j < |eb| ensures SourcesDiffer(eb, i, j) {
      if j >= |ea| {
        assert eb[j] == eb[|ea|..][j - |ea|];
      } else {
        assert SourcesDiffer(ea, i, j);
      }
    }
    forall e | e in eb && e.TurnAccepted? && e.source != "" ensures HasSource(b, e) {
      assert HasSource(a, e);
    }
  }

  lemma {:induction false} NoNewTurns(events: seq<SideEvent>, more: seq<SideEvent>)
    requires NoSources(more)
    ensures MeshTurns(events + more) == MeshTurns(events)
  {
    if more == [] {
      assert events + more == events;
    } else {
      assert (events + more)[..|events + more| - 1] == events + more[..|more| - 1];
      assert more[|more| - 1] in more;
      NoNewTurns(events, more[..|more| - 1]);
    }
  }

  lemma SameMessage(log: seq<Msg>, x: Msg, m: Msg)
    requires Ordered(log) && x in log && m in log && (x.num == m.num || x.id == m.id)
    ensures x == m
  {
    var i :| 0 <= i < |log| && log[i] == x;
    var j :| 0 <= j < |log| && log[j] == m;
    assert i < j ==> Precedes(log, i, j);
    assert j < i ==> Precedes(log, j, i);
  }

  // Admitting the next source in order keeps everything sound.
  lemma AdmittedSound(s: Mesh, events: seq<SideEvent>, m: Msg, turn: string)
    requires Sound(s, events) && m in s.log && Foreign(m) && m.id != "" && m.num > 0
    requires SettledUpTo(s, events, m.num - 1)
    requires forall e :: e in events && e.TurnAccepted? ==> e.client != ClientOf(m.id)
    ensures Sound(s, events + [TurnAccepted(turn, ClientOf(m.id), m.id, Ask(m.body, m.thread, m.sender))])
  {
    var next := events + [TurnAccepted(turn, ClientOf(m.id), m.id, Ask(m.body, m.thread, m.sender))];
    forall i, j | 0 <= i < j < |next| ensures SourcesDiffer(next, i, j) {
      if j < |events| {
        assert SourcesDiffer(events, i, j);
      } else if events[i].TurnAccepted? && events[i].source != "" {
        assert events[i] in events;
      }
    }
    forall e | e in next && e.TurnAccepted? && e.source != "" ensures HasSource(s, e) {
      if e in events {
        assert HasSource(s, e);
      }
    }
    forall e, x | e in next && x in s.log && Starts(e, x.id) && x.num > 0 ensures SettledUpTo(s, next, x.num - 1) {
      if e !in events {
        SameMessage(s.log, x, m);
      }
      assert SettledUpTo(s, events, x.num - 1);
      forall y | y in s.log && Foreign(y) && y.num <= x.num - 1 ensures Settled(s, next, y) {
        assert Settled(s, events, y);
        SettledStays(s, events, s, next, y);
      }
    }
  }

  // ---------------------------------------------------------------------
  // The mesh and the Assistant as the bridge sees them; others act before every answer
  // ---------------------------------------------------------------------

  predicate Ascends(page: seq<Msg>, i: nat, j: nat)
    requires i < |page| && j < |page|
  {
    page[i].num < page[j].num
  }

  predicate InInbox(m: Msg) {
    m.inbox
  }

  // A page: the messages of interest after `cursor`, in order, without a gap.
  predicate IsPage(log: seq<Msg>, wanted: Msg -> bool, cursor: nat, page: seq<Msg>) {
    && |page| <= PAGE
    && (forall k :: 0 <= k < |page| ==> page[k] in log && wanted(page[k]) && page[k].num > cursor)
    && (forall i, j {:trigger Ascends(page, i, j)} :: 0 <= i < j < |page| ==> Ascends(page, i, j))
    && (forall m {:trigger m in page} :: m in log && wanted(m) && m.num > cursor && (|page| < PAGE || m.num <= page[|page| - 1].num) ==> m in page)
  }

  method PageMessages(log: seq<Msg>, wanted: Msg -> bool, cursor: nat) returns (page: seq<Msg>)
    requires Ordered(log)
    ensures IsPage(log, wanted, cursor, page)
  {
    page := [];
    for i := 0 to |log|
      invariant |page| < PAGE
      invariant forall k :: 0 <= k < |page| ==> page[k] in log[..i] && wanted(page[k]) && page[k].num > cursor
      invariant forall k :: 0 <= k < |page| ==> i < |log| ==> page[k].num < log[i].num
      invariant forall a, b {:trigger Ascends(page, a, b)} :: 0 <= a < b < |page| ==> Ascends(page, a, b)
      invariant forall k :: 0 <= k < i && wanted(log[k]) && log[k].num > cursor ==> log[k] in page
    {
      assert i + 1 < |log| ==> Precedes(log, i, i + 1);
      if wanted(log[i]) && log[i].num > cursor {
        ghost var was := page;
        page := page + [log[i]];
        forall a, b | 0 <= a < b < |page| ensures Ascends(page, a, b) {
          assert b < |was| ==> Ascends(was, a, b);
        }
        if |page| == PAGE {
          forall m | m in log && wanted(m) && m.num > cursor && m.num <= log[i].num ensures m in page {
            var k :| 0 <= k < |log| && log[k] == m;
            assert i < k ==> Precedes(log, i, k);
          }
          break;
        }
      }
    }
  }

  lemma AddedLater(s: Mesh, m: Msg, reply: Msg, last: nat)
    requires WellFormed(s) && m in s.log && IsReply(reply, m) && !Answered(s, m)
    requires last == (if s.log == [] then 0 else s.log[|s.log| - 1].num)
    requires reply.num == last + 1 <= MAX_SEQ && reply.id != "" && (forall x :: x in s.log ==> x.id != reply.id)
    ensures Later(s, s.(log := s.log + [reply], own := s.own + [Own(m, reply)]))
  {
    var next, b := s.log + [reply], s.(log := s.log + [reply], own := s.own + [Own(m, reply)]);
    assert next[|s.log|] == reply;
    forall o | o in b.own ensures First(b, o) {
      if o in s.own {
        assert First(s, o);
        var i :| 0 <= i < |s.log| && s.log[i] == o.reply;
        assert i < |s.log| - 1 ==> Precedes(s.log, i, |s.log| - 1);
      }
    }
    forall i, j | 0 <= i < j < |next| ensures Precedes(next, i, j) {
      assert next[i] in s.log;
      if j < |s.log| {
        assert Precedes(s.log, i, j);
      } else if i < |s.log| - 1 {
        assert Precedes(s.log, i, |s.log| - 1);
      }
    }
  }

  lemma ReplyAnswers(log: seq<Msg>, reply: Msg, m: Msg)
    requires IsReply(reply, m)
    ensures exists r :: r in log + [reply] && IsReply(r, m)
  {
    assert (log + [reply])[|log|] == reply;
  }

  lemma ReceiptSet(a: Mesh, b: Mesh, id: string, r: Receipt)
    requires Later(a, b) && r != Accepted && (r == Delivered ==> !Failed(b, id))
    ensures Later(a, b.(receipts := b.receipts[id := r]))
  {
    var c := b.(receipts := b.receipts[id := r]);
    forall m | m in b.log && Waits(c, m.id) ensures Waits(b, m.id) {
    }
    forall o | o in c.own ensures First(c, o) {
      assert First(b, o);
    }
    LaterTransitive(a, b, c);
  }

  lemma ErrorNoted(a: Mesh, b: Mesh)
    requires Later(a, b)
    ensures Later(a, b.(errors := b.errors + 1))
  {
    var c := b.(errors := b.errors + 1);
    forall o | o in c.own ensures First(c, o) {
      assert First(b, o);
    }
    forall m | m in b.log && Waits(c, m.id) ensures Waits(b, m.id) {
    }
    LaterTransitive(a, b, c);
  }

  datatype Response = Done | ExplicitReply | Rejected | Error

  class MeshPort {
    var s: Mesh

    constructor (s: Mesh)
      ensures this.s == s
    {
      this.s := s;
    }

    method Others()
      requires WellFormed(s)
      modifies this
      ensures Later(old(s), s) && s.own == old(s).own && s.errors == old(s).errors
    {
      var n: Mesh := *;
      if Later(s, n) && n.own == s.own && n.errors == s.errors {
        s := n;
      }
    }

    method Read(wanted: Msg -> bool, cursor: nat) returns (page: Option<seq<Msg>>)
      requires WellFormed(s)
      modifies this
      ensures Later(old(s), s) && s.own == old(s).own
      ensures page.None? ==> s.errors > old(s).errors
      ensures page.Some? ==> IsPage(s.log, wanted, cursor, page.value)
    {
      Others();
      var readable: bool := *;
      if !readable {
        ErrorNoted(old(s), s);
        s := s.(errors := s.errors + 1);
        return None;
      }
      var p := PageMessages(s.log, wanted, cursor);
      page := Some(p);
    }

    method ResponseFailedAlready(id: string) returns (failed: bool)
      requires WellFormed(s)
      modifies this
      ensures Later(old(s), s) && s.own == old(s).own && failed == Failed(s, id)
    {
      Others();
      failed := Failed(s, id);
    }

    method SourceAccepted(id: string) returns (waiting: bool)
      requires WellFormed(s)
      modifies this
      ensures Later(old(s), s) && s.own == old(s).own && waiting == Waits(s, id)
    {
      Others();
      waiting := Waits(s, id);
    }

    // Closes the receipt of a source no process was started for; an answered one needs no closing.
    method MarkUnprocessed(m: Msg) returns (ok: bool)
      requires WellFormed(s)
      modifies this
      ensures Later(old(s), s) && s.own == old(s).own
      ensures ok ==> Released(s, m)
      ensures !ok ==> s.errors > old(s).errors
    {
      Others();
      if Failed(s, m.id) {
        return true;
      }
      ok := *;
      if ok {
        if !Answered(s, m) {
          ReceiptSet(old(s), s, m.id, Undeliverable);
          s := s.(receipts := s.receipts[m.id := Undeliverable]);
        } else if Waits(s, m.id) {
          ReceiptSet(old(s), s, m.id, Delivered);
          StillAnswered(s, s.(receipts := s.receipts[m.id := Delivered]), m);
          s := s.(receipts := s.receipts[m.id := Delivered]);
        }
      } else {
        ErrorNoted(old(s), s);
        s := s.(errors := s.errors + 1);
      }
    }

    method ResponseFailed(m: Msg) returns (r: Response)
      requires WellFormed(s)
      modifies this
      ensures Later(old(s), s) && s.own == old(s).own
      ensures r == Done ==> Failed(s, m.id)
      ensures r == ExplicitReply ==> Answered(s, m)
      ensures r != Rejected && (r == Error ==> s.errors > old(s).errors)
    {
      Others();
      if Answered(s, m) {
        return ExplicitReply;
      }
      var ok: bool := *;
      if !ok {
        ErrorNoted(old(s), s);
        s := s.(errors := s.errors + 1);
        return Error;
      }
      ReceiptSet(old(s), s, m.id, Undeliverable);
      s := s.(receipts := s.receipts[m.id := Undeliverable]);
      r := Done;
    }

    // Adds the bridge's own reply; refused when the process answered meanwhile.
    method SendReply(m: Msg, kind: Kind, body: string) returns (r: Response)
      requires WellFormed(s) && m in s.log
      modifies this
      ensures Later(old(s), s)
      ensures r == Done || r == ExplicitReply ==> Answered(s, m)
      ensures SentOnly(old(s).own, s.own, m, kind, body)
      ensures r == Done <==> s.own != old(s).own
      ensures r == Error ==> s.errors > old(s).errors
    {
      Others();
      if Answered(s, m) {
        return ExplicitReply;
      }
      var ok, rejected, id: string := *, *, *;
      var last := if s.log == [] then 0 else s.log[|s.log| - 1].num;
      if !ok || id == "" || last >= MAX_SEQ || exists x :: x in s.log && x.id == id {
        if rejected {
          return Rejected;
        }
        ErrorNoted(old(s), s);
        s := s.(errors := s.errors + 1);
        return Error;
      }
      var reply := Msg(id, last + 1, m.thread, SIDE, false, Some(m.id), true, body, kind, [m.sender]);
      AddedLater(s, m, reply, last);
      ReplyAnswers(s.log, reply, m);
      s := s.(log := s.log + [reply], own := s.own + [Own(m, reply)]);
      r := Done;
    }
  }

  // Nothing was sent, or one reply of this content to the sender of the message.
  predicate SentOnly(before: seq<Own>, after: seq<Own>, m: Msg, kind: Kind, body: string) {
    after == before || (|after| == |before| + 1 && before == after[..|before|] && IsAnswer(after[|before|], m, kind, body))
  }

  predicate IsAnswer(o: Own, m: Msg, kind: Kind, body: string) {
    o.source == m && IsReply(o.reply, m) && o.reply.recipients == [m.sender] && o.reply.kind == kind && o.reply.body == body
  }

  datatype Admission = Taken | Busy | Refused

  class SidePort {
    var events: seq<SideEvent>
    var unavailable: bool
    // How often a message was taken or had to wait for a turn under way.
    var waits: nat

    constructor (events: seq<SideEvent>)
      ensures this.events == events
    {
      this.events := events;
      unavailable, waits := false, 0;
    }

    method Others()
      modifies this
      ensures old(events) <= events && NoSources(events[|old(events)|..]) && waits == old(waits)
    {
      var more: seq<SideEvent> := *;
      if NoSources(more) {
        events := events + more;
      }
      var fails: bool := *;
      unavailable := unavailable || fails;
    }

    method History() returns (h: seq<SideEvent>)
      modifies this
      ensures waits == old(waits)
      ensures old(events) <= events && NoSources(events[|old(events)|..])
      ensures h == events
    {
      Others();
      h := events;
    }

    // A client ID seen before gets its turn again, or a conflict; a new one a turn of its own,
    // unless the Assistant is busy or cannot take it.
    method Send(client: string, source: string, ask: Ask) returns (r: Admission, turn: string, ghost before: seq<SideEvent>)
      modifies this
      ensures old(events) <= before && NoSources(before[|old(events)|..])
      ensures events == before
        || (r == Taken && events == before + [TurnAccepted(turn, client, source, ask)]
            && forall e :: e in before && e.TurnAccepted? ==> e.client != client)
      ensures waits == old(waits) + (if r == Refused then 0 else 1)
    {
      Others();
      before := events;
      turn := *;
      var shuttingDown, sameRequest, busy, tooLong, writeFails: bool := *, *, *, *, *;
      if shuttingDown {
        return Refused, turn, before;
      }
      if exists e :: e in events && e.TurnAccepted? && e.client == client {
        if !sameRequest {
          return Refused, turn, before;
        }
        waits := waits + 1;
        return Taken, turn, before;
      }
      if busy {
        waits := waits + 1;
        return Busy, turn, before;
      }
      if tooLong {
        return Refused, turn, before;
      }
      if writeFails {
        unavailable := true;
        return Refused, turn, before;
      }
      events := events + [TurnAccepted(turn, client, source, ask)];
      waits := waits + 1;
      r := Taken;
    }
  }

  // ---------------------------------------------------------------------
  // The bridge
  // ---------------------------------------------------------------------

  predicate BlankText(text: string) {
    forall c :: c in text ==> c == ' ' || '\t' <= c <= '\r'
  }

  // The outcome that releases a source once the Assistant's own journal no longer counts.
  predicate Resolved(s: Mesh, m: Msg) {
    Failed(s, m.id) || Answered(s, m) || (m.auto && Released(s, m))
  }

  predicate ResolvedUpTo(s: Mesh, cursor: nat) {
    forall m {:trigger Resolved(s, m)} :: m in s.log && Foreign(m) && m.num <= cursor ==> Resolved(s, m)
  }

  lemma ResolvedStays(a: Mesh, b: Mesh, m: Msg)
    requires Later(a, b) && m in a.log && Resolved(a, m)
    ensures Resolved(b, m)
  {
    if Answered(a, m) {
      var r :| r in a.log && IsReply(r, m);
      assert r in b.log;
    }
  }

  lemma ResolvedUpToStays(a: Mesh, b: Mesh, cursor: nat)
    requires Later(a, b) && Reached(a.log, cursor) && ResolvedUpTo(a, cursor)
    ensures ResolvedUpTo(b, cursor)
  {
    forall x | x in b.log && Foreign(x) && x.num <= cursor ensures Resolved(b, x) {
      var m :| m in a.log && cursor <= m.num;
      NothingBefore(a, b, m, x);
      ResolvedStays(a, b, x);
    }
  }

  // All foreign messages before the k-th of a page are the ones the page and its cursor cover.
  lemma NoneBetween(at: Mesh, now: Mesh, cursor: nat, page: seq<Msg>, k: nat, x: Msg)
    requires Later(at, now) && IsPage(at.log, InInbox, cursor, page) && k < |page|
    requires x in now.log && x.inbox && x.num < page[k].num
    ensures x.num <= if k == 0 then cursor else page[k - 1].num
  {
    NothingBefore(at, now, page[k], x);
    if x.num > cursor {
      assert k < |page| - 1 ==> Ascends(page, k, |page| - 1);
      assert x in page;
      var j :| 0 <= j < |page| && page[j] == x;
      assert k < j ==> Ascends(page, k, j);
      assert j < k - 1 ==> Ascends(page, j, k - 1);
    }
  }

  lemma PageFront(at: Mesh, now: Mesh, events: seq<SideEvent>, c: nat, cursor: nat, page: seq<Msg>, k: nat)
    requires Later(at, now) && IsPage(at.log, InInbox, c, page) && k < |page|
    requires cursor == (if k == 0 then c else page[k - 1].num) && SettledUpTo(now, events, cursor)
    ensures page[k] in now.log && page[k].inbox && page[k].num > cursor && SettledUpTo(now, events, page[k].num - 1)
  {
    assert k > 0 ==> Ascends(page, k - 1, k);
    forall x | x in now.log && Foreign(x) && x.num <= page[k].num - 1 ensures Settled(now, events, x) {
      NoneBetween(at, now, c, page, k, x);
    }
  }

  lemma FrontSettled(s: Mesh, events: seq<SideEvent>, m: Msg)
    requires Ordered(s.log) && m in s.log && m.num > 0 && SettledUpTo(s, events, m.num - 1)
    requires Foreign(m) ==> Settled(s, events, m)
    ensures SettledUpTo(s, events, m.num) && Reached(s.log, m.num)
  {
    forall x | x in s.log && Foreign(x) && x.num <= m.num ensures Settled(s, events, x) {
      if x.num == m.num {
        SameMessage(s.log, x, m);
      }
    }
  }

  lemma PageFrontResolved(at: Mesh, now: Mesh, c: nat, cursor: nat, page: seq<Msg>, k: nat)
    requires Later(at, now) && IsPage(at.log, InInbox, c, page) && k < |page|
    requires cursor == (if k == 0 then c else page[k - 1].num) && ResolvedUpTo(now, cursor)
    ensures page[k] in now.log && page[k].inbox && page[k].num > 0 && ResolvedUpTo(now, page[k].num - 1)
  {
    forall x | x in now.log && Foreign(x) && x.num <= page[k].num - 1 ensures Resolved(now, x) {
      NoneBetween(at, now, c, page, k, x);
    }
  }

  lemma FrontResolved(s: Mesh, m: Msg)
    requires Ordered(s.log) && m in s.log && m.num > 0 && ResolvedUpTo(s, m.num - 1)
    requires Foreign(m) ==> Resolved(s, m)
    ensures ResolvedUpTo(s, m.num) && Reached(s.log, m.num)
  {
    forall x | x in s.log && Foreign(x) && x.num <= m.num ensures Resolved(s, x) {
      if x.num == m.num {
        SameMessage(s.log, x, m);
      }
    }
  }

  // ---------------------------------------------------------------------
  // What the bridge answers
  // ---------------------------------------------------------------------

  const FAILURE: string := "Could not answer this message"
  const UNAVAILABLE: string := "Could not answer: Assistant unavailable"

  const MAX_BODY: nat := 16 * 1024
  const TRUNCATED: string := "\n[Response truncated]"

  // How many bytes the text takes in UTF-8 (RFC 3629, section 3).
  function CharBytes(c: char): nat {
    if c as int < 0x80 then 1 else if c as int < 0x800 then 2 else if c as int < 0x10000 then 3 else 4
  }

  function Bytes(text: string): nat {
    if text == "" then 0 else Bytes(text[..|text| - 1]) + CharBytes(text[|text| - 1])
  }

  function Cut(text: string, limit: nat): string {
    if Bytes(text) <= limit then text else Cut(text[..|text| - 1], limit)
  }

  // A reply too long for a message is cut and marked.
  function Bounded(text: string, limit: nat, mark: string): string
    requires Bytes(mark) <= limit
  {
    if Bytes(text) <= limit then text else Cut(text, limit - Bytes(mark)) + mark
  }

  lemma {:induction false} CutExact(text: string, limit: nat)
    ensures var r := Cut(text, limit);
      r <= text && Bytes(r) <= limit && (|r| < |text| ==> Bytes(r) + CharBytes(text[|r|]) > limit)
  {
    if Bytes(text) > limit {
      var front := text[..|text| - 1];
      CutExact(front, limit);
      if Cut(front, limit) == front {
        assert text[|front|] == text[|text| - 1];
      }
    }
  }

  lemma {:induction false} BytesAppend(a: string, b: string)
    ensures Bytes(a + b) == Bytes(a) + Bytes(b)
  {
    if b == "" {
      assert a + b == a;
    } else {
      BytesAppend(a, b[..|b| - 1]);
      assert (a + b)[..|a + b| - 1] == a + b[..|b| - 1];
    }
  }

  // The first n characters leave room for the mark, and one more would not.
  predicate FitsMarked(text: string, n: nat, limit: nat, mark: string) {
    && n < |text|
    && Bytes(text[..n]) + Bytes(mark) <= limit < Bytes(text[..n]) + CharBytes(text[n]) + Bytes(mark)
  }

  // Within the limit; unchanged if it fits, and otherwise as much of it as leaves room for the mark.
  lemma BoundedExact(text: string, limit: nat, mark: string)
    requires Bytes(mark) <= limit
    ensures var r := Bounded(text, limit, mark);
      && Bytes(r) <= limit
      && (Bytes(text) <= limit ==> r == text)
      && (Bytes(text) > limit ==> exists n: nat :: FitsMarked(text, n, limit, mark) && r == text[..n] + mark)
  {
    if Bytes(text) > limit {
      var part := Cut(text, limit - Bytes(mark));
      CutExact(text, limit - Bytes(mark));
      BytesAppend(part, mark);
      assert part == text[..|part|];
      assert part != text;
      assert FitsMarked(text, |part|, limit, mark);
    }
  }

  lemma {:induction false} PlainBytes(text: string)
    requires forall i :: 0 <= i < |text| ==> text[i] as int < 0x80
    ensures Bytes(text) == |text|
  {
    if text != "" { PlainBytes(text[..|text| - 1]); }
  }

  // The text as it is sent.
  function Sendable(text: string): string {
    PlainBytes(TRUNCATED);
    Bounded(text, MAX_BODY, TRUNCATED)
  }

  // Event i began the last turn for the source, event j was its last end, and it completed; event k
  // gave the last text before that.
  predicate SucceededAt(h: seq<SideEvent>, source: string, text: string, i: nat, j: nat, k: nat) {
    && i < |h| && Starts(h[i], source) && (forall x :: i < x < |h| ==> !Starts(h[x], source))
    && j < |h| && h[j] == TurnCompleted(h[i].turn) && (forall x :: j < x < |h| ==> !(Ends(h[x]) && h[x].turn == h[i].turn))
    && k < j && h[k] == AssistantText(h[i].turn, text)
    && (forall x :: k < x < j ==> !(h[x].AssistantText? && h[x].turn == h[i].turn))
  }

  ghost predicate Succeeded(h: seq<SideEvent>, source: string, text: string) {
    !BlankText(text) && exists i: nat, j: nat, k: nat :: SucceededAt(h, source, text, i, j, k)
  }

  // The source's turn ended without a text, or there was none.
  ghost predicate Hopeless(h: seq<SideEvent>, source: string) {
    && (forall text :: !Succeeded(h, source, text))
    && (Finished(h, source) || forall i :: 0 <= i < |h| ==> !Starts(h[i], source))
  }

  predicate ToSender(o: Own) {
    Foreign(o.source) && !o.source.auto && IsReply(o.reply, o.source) && o.reply.recipients == [o.source.sender]
  }

  // The reply is what the journal says: the text of the turn, or that there is none.
  ghost predicate Fits(h: seq<SideEvent>, o: Own) {
    && ToSender(o)
    && ((o.reply.kind == Reply && exists text :: Succeeded(h, o.source.id, text) && o.reply.body == Sendable(text))
        || (o.reply.kind == Result && o.reply.body == FAILURE && Hopeless(h, o.source.id)))
  }

  predicate Apologizes(o: Own) {
    ToSender(o) && o.reply.kind == Result && o.reply.body == UNAVAILABLE
  }

  ghost predicate FitAdded(h: seq<SideEvent>, before: seq<Own>, after: seq<Own>) {
    before <= after && forall k {:trigger Fits(h, after[k])} :: |before| <= k < |after| ==> Fits(h, after[k])
  }

  predicate ApologiesAdded(before: seq<Own>, after: seq<Own>) {
    before <= after && forall k {:trigger Apologizes(after[k])} :: |before| <= k < |after| ==> Apologizes(after[k])
  }

  // Every foreign message of s0 is released without the Assistant's own journal.
  ghost predicate AllReleased(s0: Mesh, s: Mesh) {
    forall m {:trigger Resolved(s, m)} :: m in s0.log && Foreign(m) ==> Resolved(s, m)
  }

  // All that was added fits the journal as it was at one moment.
  ghost predicate AnsweredOn(events: seq<SideEvent>, before: seq<Own>, after: seq<Own>) {
    exists n: nat {:trigger events[..n]} :: n <= |events| && FitAdded(events[..n], before, after)
  }

  ghost predicate Meant(events: seq<SideEvent>, o: Own) {
    Apologizes(o) || exists n: nat {:trigger events[..n]} :: n <= |events| && Fits(events[..n], o)
  }

  ghost predicate AllMeant(events: seq<SideEvent>, before: seq<Own>, after: seq<Own>) {
    before <= after && forall k {:trigger Meant(events, after[k])} :: |before| <= k < |after| ==> Meant(events, after[k])
  }

  // A foreign message's turn was under way in this history.
  ghost predicate Running(h: seq<SideEvent>, s: Mesh) {
    exists m {:trigger m.id in TurnsOf(h)} :: m in s.log && Foreign(m) && m.id in TurnsOf(h) && TurnsOf(h)[m.id] !in OutcomesOf(h)
  }

  // Why a pass does not go on: a call failed, the Assistant took a message or is busy, or a turn is under way.
  ghost predicate Cause(a: Mesh, was: nat, h: seq<SideEvent>, b: Mesh, waits: nat) {
    b.errors > a.errors || waits > was || Running(h, b)
  }

  ghost predicate CauseOn(a: Mesh, was: nat, events: seq<SideEvent>, b: Mesh, waits: nat) {
    exists n: nat {:trigger events[..n]} :: n <= |events| && Cause(a, was, events[..n], b, waits)
  }

  lemma FitTransitive(h: seq<SideEvent>, a: seq<Own>, b: seq<Own>, c: seq<Own>)
    requires FitAdded(h, a, b) && FitAdded(h, b, c)
    ensures FitAdded(h, a, c)
  {
    forall k | |a| <= k < |c| ensures Fits(h, c[k]) {
      if k < |b| {
        assert Fits(h, b[k]);
      }
    }
  }

  lemma ApologiesTransitive(a: seq<Own>, b: seq<Own>, c: seq<Own>)
    requires ApologiesAdded(a, b) && ApologiesAdded(b, c)
    ensures ApologiesAdded(a, c)
  {
    forall k | |a| <= k < |c| ensures Apologizes(c[k]) {
      if k < |b| {
        assert Apologizes(b[k]);
      }
    }
  }

  lemma MeantAdded(events: seq<SideEvent>, before: seq<Own>, after: seq<Own>)
    requires AnsweredOn(events, before, after) || ApologiesAdded(before, after)
    ensures AllMeant(events, before, after)
  {
    if AnsweredOn(events, before, after) {
      var n: nat :| n <= |events| && FitAdded(events[..n], before, after);
      forall k | |before| <= k < |after| ensures Meant(events, after[k]) {
        assert Fits(events[..n], after[k]);
      }
    } else {
      forall k | |before| <= k < |after| ensures Meant(events, after[k]) {
        assert Apologizes(after[k]);
      }
    }
  }

  lemma MeantTransitive(ea: seq<SideEvent>, eb: seq<SideEvent>, a: seq<Own>, b: seq<Own>, c: seq<Own>)
    requires ea <= eb && AllMeant(ea, a, b) && AllMeant(eb, b, c)
    ensures AllMeant(eb, a, c)
  {
    forall k | |a| <= k < |c| ensures Meant(eb, c[k]) {
      if k < |b| {
        assert Meant(ea, b[k]);
        if !Apologizes(b[k]) {
          var n: nat :| n <= |ea| && Fits(ea[..n], b[k]);
          assert eb[..n] == ea[..n];
        }
      } else {
        assert Meant(eb, c[k]);
      }
    }
  }

  predicate LastText(h: seq<SideEvent>, k: nat, turn: string) {
    k < |h| && h[k].AssistantText? && h[k].turn == turn && forall x :: k < x < |h| ==> !(h[x].AssistantText? && h[x].turn == turn)
  }

  lemma {:induction false} TextsExact(h: seq<SideEvent>, turn: string)
    ensures turn in TextsOf(h) ==> exists k: nat :: LastText(h, k, turn) && h[k].text == TextsOf(h)[turn]
    ensures turn !in TextsOf(h) ==> forall k :: 0 <= k < |h| ==> !(h[k].AssistantText? && h[k].turn == turn)
  {
    if h != [] {
      var front, n := h[..|h| - 1], |h| - 1;
      TextsExact(front, turn);
      if h[n].AssistantText? && h[n].turn == turn {
        assert LastText(h, n, turn);
      } else if turn in TextsOf(front) {
        var k: nat :| LastText(front, k, turn) && front[k].text == TextsOf(front)[turn];
        assert LastText(h, k, turn);
      } else {
        assert forall k :: 0 <= k < n ==> h[k] == front[k];
      }
    }
  }

  // The text of a source is unique, if it has one.
  lemma SucceededOnce(h: seq<SideEvent>, source: string, i: nat, j: nat, text: string)
    requires i < |h| && Starts(h[i], source) && forall x :: i < x < |h| ==> !Starts(h[x], source)
    requires j < |h| && Ends(h[j]) && h[j].turn == h[i].turn && forall x :: j < x < |h| ==> !(Ends(h[x]) && h[x].turn == h[i].turn)
    ensures Succeeded(h, source, text) <==>
      h[j].TurnCompleted? && !BlankText(text) && exists k: nat :: LastText(h[..j], k, h[i].turn) && h[k].text == text
  {
    if Succeeded(h, source, text) {
      var i', j', k: nat :| SucceededAt(h, source, text, i', j', k);
      assert i' == i && j' == j;
      assert LastText(h[..j], k, h[i].turn);
    }
    if h[j].TurnCompleted? && !BlankText(text) && exists k: nat :: LastText(h[..j], k, h[i].turn) && h[k].text == text {
      var k: nat :| LastText(h[..j], k, h[i].turn) && h[k].text == text;
      assert h[k] == h[..j][k];
      forall x | k < x < j ensures !(h[x].AssistantText? && h[x].turn == h[i].turn) {
        assert h[x] == h[..j][x];
      }
      assert SucceededAt(h, source, text, i, j, k);
    }
  }

  // The outcome computed in one pass is the text of the source's turn.
  lemma OutcomeMeans(h: seq<SideEvent>, source: string)
    requires source in TurnsOf(h) && TurnsOf(h)[source] in OutcomesOf(h)
    ensures var o := OutcomesOf(h)[TurnsOf(h)[source]];
      forall text :: Succeeded(h, source, text) <==> o.completed && text == o.text && !BlankText(text)
    ensures Finished(h, source)
  {
    TurnFinished(h, h, source);
    TurnsExact(h, source);
    var turn := TurnsOf(h)[source];
    OutcomesExact(h, turn);
    var i: nat :| LastFor(h, i, (e: SideEvent) => Starts(e, source)) && h[i].turn == turn;
    var j: nat :| LastFor(h, j, (e: SideEvent) => Ends(e) && e.turn == turn) && OutcomesOf(h)[turn] == OutcomeAt(h, j);
    TextsExact(h[..j], turn);
    forall text ensures Succeeded(h, source, text) <==> OutcomeAt(h, j).completed && text == OutcomeAt(h, j).text && !BlankText(text) {
      SucceededOnce(h, source, i, j, text);
      OneText(h[..j], turn, text);
    }
  }

  lemma OneText(h: seq<SideEvent>, turn: string, text: string)
    ensures (exists k: nat :: LastText(h, k, turn) && h[k].text == text) <==> turn in TextsOf(h) && TextsOf(h)[turn] == text
  {
    TextsExact(h, turn);
  }

  class Bridge {
    const mesh: MeshPort
    const side: SidePort?
    var cursor: nat
    var noticed: set<string>
    var closing: bool

    ghost predicate Valid()
      reads this, mesh, side
    {
      && WellFormed(mesh.s)
      && Reached(mesh.s.log, cursor)
      && (side != null ==> Sound(mesh.s, side.events) && SettledUpTo(mesh.s, side.events, cursor))
    }

    // A bridge begins at the start of the inbox, whatever an earlier one had reached.
    constructor (mesh: MeshPort, side: SidePort?)
      requires WellFormed(mesh.s) && (side != null ==> Sound(mesh.s, side.events))
      ensures Valid() && this.mesh == mesh && this.side == side && cursor == 0
    {
      this.mesh, this.side := mesh, side;
      cursor, noticed, closing := 0, {}, false;
    }

    method HasSideTerminal(m: Msg) returns (yes: bool)
      requires WellFormed(mesh.s)
      modifies mesh
      ensures Later(old(mesh.s), mesh.s) && mesh.s.own == old(mesh.s).own
      ensures yes ==> Answered(mesh.s, m)
    {
      var c := 0;
      while true
        invariant Later(old(mesh.s), mesh.s) && mesh.s.own == old(mesh.s).own && c <= MAX_SEQ
        decreases MAX_SEQ - c
      {
        var page := mesh.Read((x: Msg) => x.thread == m.thread, c);
        if page.None? {
          return false;
        }
        for k := 0 to |page.value| {
          if page.value[k].sender == SIDE && page.value[k].inReplyTo == Some(m.id) {
            assert IsReply(page.value[k], m);
            return true;
          }
        }
        if |page.value| < PAGE {
          return false;
        }
        c := page.value[PAGE - 1].num;
      }
    }

    method SendTerminal(m: Msg, kind: Kind, body: string) returns (ok: bool)
      requires WellFormed(mesh.s) && m in mesh.s.log
      modifies mesh, this`noticed
      ensures Later(old(mesh.s), mesh.s)
      ensures SentOnly(old(mesh.s).own, mesh.s.own, m, kind, body)
      ensures !ok ==> mesh.s.errors > old(mesh.s).errors
      ensures ok ==> Failed(mesh.s, m.id) || Answered(mesh.s, m)
    {
      var r := mesh.SendReply(m, kind, body);
      if r == Done || r == ExplicitReply {
        return true;
      }
      if r != Rejected {
        return false;
      }
      r := mesh.ResponseFailed(m);
      if r == ExplicitReply {
        return true;
      }
      if r != Done {
        return false;
      }
      noticed := noticed + {m.id};
      ok := true;
    }

    method PublishTerminal(m: Msg, outcome: Outcome) returns (ok: bool)
      requires WellFormed(mesh.s) && m in mesh.s.log
      modifies mesh, this`noticed
      ensures Later(old(mesh.s), mesh.s)
      ensures outcome.completed && !BlankText(outcome.text) ==> SentOnly(old(mesh.s).own, mesh.s.own, m, Reply, Sendable(outcome.text))
      ensures !outcome.completed || BlankText(outcome.text) ==> SentOnly(old(mesh.s).own, mesh.s.own, m, Result, FAILURE)
      ensures !ok ==> mesh.s.errors > old(mesh.s).errors
      ensures ok ==> Failed(mesh.s, m.id) || Answered(mesh.s, m)
    {
      ok := HasSideTerminal(m);
      if ok {
        return;
      }
      if outcome.completed && !BlankText(outcome.text) {
        ok := SendTerminal(m, Reply, Sendable(outcome.text));
      } else {
        ok := SendTerminal(m, Result, FAILURE);
      }
    }

    // The notice itself is not part of this model; the bridge remembers that it gave one.
    method NoticeFailure(m: Msg)
      requires WellFormed(mesh.s)
      modifies mesh, this`noticed
      ensures Later(old(mesh.s), mesh.s) && mesh.s.own == old(mesh.s).own
    {
      if !m.auto && m.id !in noticed {
        var answered := HasSideTerminal(m);
        if !answered {
          noticed := noticed + {m.id};
        }
      }
    }

    // Nothing waits for the source any more.
    method CloseReceipt(m: Msg) returns (done: bool)
      requires WellFormed(mesh.s)
      modifies mesh
      ensures Later(old(mesh.s), mesh.s) && mesh.s.own == old(mesh.s).own
      ensures done ==> Released(mesh.s, m)
      ensures !done ==> mesh.s.errors > old(mesh.s).errors
    {
      done := true;
      var waiting := mesh.SourceAccepted(m.id);
      if waiting {
        done := mesh.MarkUnprocessed(m);
      }
    }

    // A source whose turn has ended gets its answer, if it is owed one, and its receipt closed.
    method FinishTurn(m: Msg, outcome: Outcome, ghost h: seq<SideEvent>, ghost events: seq<SideEvent>) returns (done: bool)
      requires WellFormed(mesh.s) && m in mesh.s.log && Foreign(m) && h <= events
      requires m.id in TurnsOf(h) && TurnsOf(h)[m.id] in OutcomesOf(h) && outcome == OutcomesOf(h)[TurnsOf(h)[m.id]]
      modifies mesh, this`noticed
      ensures Later(old(mesh.s), mesh.s)
      ensures FitAdded(h, old(mesh.s).own, mesh.s.own)
      ensures done ==> Settled(mesh.s, events, m)
      ensures !done ==> mesh.s.errors > old(mesh.s).errors
    {
      OutcomeMeans(h, m.id);
      TurnFinished(h, events, m.id);
      if !m.auto {
        done := PublishTerminal(m, outcome);
        TerminalFits(h, old(mesh.s).own, mesh.s.own, m, outcome);
        if !done {
          return;
        }
      }
      ghost var published := mesh.s;
      done := CloseReceipt(m);
      if Answered(published, m) {
        StillAnswered(published, mesh.s, m);
      }
    }

    // A source the Assistant could not take is answered with a failure.
    method RefuseSource(m: Msg, ghost h: seq<SideEvent>, ghost events: seq<SideEvent>) returns (done: bool)
      requires WellFormed(mesh.s) && m in mesh.s.log && Foreign(m) && m.id !in TurnsOf(h)
      modifies mesh, this`noticed
      ensures Later(old(mesh.s), mesh.s)
      ensures FitAdded(h, old(mesh.s).own, mesh.s.own)
      ensures done ==> Settled(mesh.s, events, m)
      ensures !done ==> mesh.s.errors > old(mesh.s).errors
    {
      if m.auto {
        var r := mesh.ResponseFailed(m);
        if r != Done && r != ExplicitReply {
          return false;
        }
        noticed := noticed + {m.id};
        return true;
      }
      done := SendTerminal(m, Result, FAILURE);
      RefusalFits(h, old(mesh.s).own, mesh.s.own, m);
      if done {
        ghost var published := mesh.s;
        done := mesh.MarkUnprocessed(m);
        if Answered(published, m) {
          StillAnswered(published, mesh.s, m);
        }
      }
    }

    // Brings one foreign message to its outcome, or starts its turn and stops there.
    method Settle(m: Msg, accepted: map<string, string>, terminal: map<string, Outcome>, ghost h: seq<SideEvent>) returns (done: bool)
      requires side != null && Sound(mesh.s, side.events) && h <= side.events
      requires accepted == TurnsOf(h) && terminal == OutcomesOf(h)
      requires m in mesh.s.log && Foreign(m) && m.num > 0 && SettledUpTo(mesh.s, side.events, m.num - 1)
      modifies mesh, side, this`noticed
      ensures Later(old(mesh.s), mesh.s) && old(side.events) <= side.events
      ensures Sound(mesh.s, side.events)
      ensures FitAdded(h, old(mesh.s).own, mesh.s.own)
      ensures side.waits >= old(side.waits) && (!done ==> Cause(old(mesh.s), old(side.waits), h, mesh.s, side.waits))
      ensures done ==> Settled(mesh.s, side.events, m) && MeshTurns(side.events) == MeshTurns(old(side.events))
      ensures MeshTurns(side.events) <= MeshTurns(old(side.events)) + 1
    {
      ghost var s0, e0 := mesh.s, side.events;
      var failed := mesh.ResponseFailedAlready(m.id);
      if failed {
        NoticeFailure(m);
        Unmoved(s0, mesh.s, e0);
        return true;
      }
      if m.id in accepted {
        if accepted[m.id] !in terminal {
          Unmoved(s0, mesh.s, e0);
          return false;
        }
        done := FinishTurn(m, terminal[accepted[m.id]], h, e0);
        Unmoved(s0, mesh.s, e0);
        return;
      }
      var answered := HasSideTerminal(m);
      if answered {
        ghost var was := mesh.s;
        done := mesh.MarkUnprocessed(m);
        StillAnswered(was, mesh.s, m);
        Unmoved(s0, mesh.s, e0);
        return;
      }
      Unmoved(s0, mesh.s, e0);
      UpToStays(s0, e0, mesh.s, e0, m.num - 1);
      done := Admit(m, h);
    }

    // Starts the turn of a message that has none, or answers it with the refusal.
    method Admit(m: Msg, ghost h: seq<SideEvent>) returns (done: bool)
      requires side != null && Sound(mesh.s, side.events) && m.id !in TurnsOf(h)
      requires m in mesh.s.log && Foreign(m) && m.num > 0 && SettledUpTo(mesh.s, side.events, m.num - 1)
      modifies mesh, side, this`noticed
      ensures Later(old(mesh.s), mesh.s) && old(side.events) <= side.events
      ensures Sound(mesh.s, side.events)
      ensures FitAdded(h, old(mesh.s).own, mesh.s.own)
      ensures side.waits >= old(side.waits) && (!done ==> mesh.s.errors > old(mesh.s).errors || side.waits > old(side.waits))
      ensures done ==> Settled(mesh.s, side.events, m) && MeshTurns(side.events) == MeshTurns(old(side.events))
      ensures MeshTurns(side.events) <= MeshTurns(old(side.events)) + 1
    {
      ghost var s1, e0 := mesh.s, side.events;
      var admission, turn, before := side.Send(ClientOf(m.id), m.id, Ask(m.body, m.thread, m.sender));
      Admitted(s1, e0, before, side.events, m, turn);
      if admission != Refused {
        return false;
      }
      assert side.events == before;
      done := RefuseSource(m, h, before);
      SoundStays(s1, before, mesh.s, before);
    }

    // The next message of the inbox; the cursor passes it once it has its outcome.
    method WorkMessage(m: Msg, accepted: map<string, string>, terminal: map<string, Outcome>, ghost h: seq<SideEvent>) returns (go: bool)
      requires Valid() && side != null && h <= side.events
      requires accepted == TurnsOf(h) && terminal == OutcomesOf(h)
      requires m in mesh.s.log && m.inbox && m.num > cursor && SettledUpTo(mesh.s, side.events, m.num - 1)
      modifies this, mesh, side
      ensures Valid() && cursor == if go then m.num else old(cursor)
      ensures Later(old(mesh.s), mesh.s) && old(side.events) <= side.events
      ensures FitAdded(h, old(mesh.s).own, mesh.s.own)
      ensures side.waits >= old(side.waits) && (!go ==> Cause(old(mesh.s), old(side.waits), h, mesh.s, side.waits))
      ensures go ==> MeshTurns(side.events) == MeshTurns(old(side.events))
      ensures MeshTurns(side.events) <= MeshTurns(old(side.events)) + 1
    {
      go := true;
      if m.sender != SIDE {
        ghost var s0, e0 := mesh.s, side.events;
        go := Settle(m, accepted, terminal, h);
        UpToStays(s0, e0, mesh.s, side.events, m.num - 1);
        if !go {
          UpToStays(s0, e0, mesh.s, side.events, cursor);
          return;
        }
      }
      FrontSettled(mesh.s, side.events, m);
      cursor := m.num;
    }

    // The messages of one page, in order, until one has to wait.
    method WorkPage(page: seq<Msg>, accepted: map<string, string>, terminal: map<string, Outcome>,
                    ghost s0: Mesh, ghost at: Mesh, ghost h: seq<SideEvent>) returns (go: bool)
      requires Later(s0, at)
      requires Valid() && side != null && h <= side.events
      requires accepted == TurnsOf(h) && terminal == OutcomesOf(h)
      requires mesh.s == at && IsPage(at.log, InInbox, cursor, page)
      modifies this, mesh, side
      ensures Valid() && cursor >= old(cursor)
      ensures Later(at, mesh.s) && old(side.events) <= side.events
      ensures FitAdded(h, at.own, mesh.s.own)
      ensures side.waits >= old(side.waits) && (!go ==> Cause(at, old(side.waits), h, mesh.s, side.waits))
      ensures go && |page| == PAGE ==> old(cursor) < cursor <= MAX_SEQ
      ensures go && |page| < PAGE ==> Cleared(s0, mesh.s, side.events)
      ensures go ==> MeshTurns(side.events) == MeshTurns(old(side.events))
      ensures MeshTurns(side.events) <= MeshTurns(old(side.events)) + 1
    {
      for k := 0 to |page|
        invariant Valid() && Later(at, mesh.s) && old(side.events) <= side.events
        invariant cursor == if k == 0 then old(cursor) else page[k - 1].num
        invariant cursor >= old(cursor)
        invariant FitAdded(h, at.own, mesh.s.own) && side.waits >= old(side.waits)
        invariant MeshTurns(side.events) == MeshTurns(old(side.events))
      {
        PageFront(at, mesh.s, side.events, old(cursor), cursor, page, k);
        ghost var from := mesh.s;
        go := WorkMessage(page[k], accepted, terminal, h);
        LaterTransitive(at, from, mesh.s);
        FitTransitive(h, at.own, from.own, mesh.s.own);
        if !go {
          return;
        }
      }
      go := true;
      if |page| < PAGE {
        AllCovered(s0, at, mesh.s, side.events, old(cursor), page, cursor);
      }
    }

    // One pass over the inbox. Its result says that nothing is left to do.
    method Reconcile() returns (idle: bool)
      requires Valid()
      modifies this, mesh, side
      ensures Valid() && cursor >= old(cursor)
      ensures Later(old(mesh.s), mesh.s)
      ensures side != null ==> old(side.events) <= side.events && MeshTurns(side.events) <= MeshTurns(old(side.events)) + 1
      ensures side != null && !old(side.unavailable) ==> AnsweredOn(side.events, old(mesh.s).own, mesh.s.own)
      ensures side == null || old(side.unavailable) ==> ApologiesAdded(old(mesh.s).own, mesh.s.own)
      ensures !idle ==> mesh.s.errors > old(mesh.s).errors || (side != null && (old(side.unavailable) || CauseOn(old(mesh.s), old(side.waits), side.events, mesh.s, side.waits)))
      ensures idle ==> forall m :: m in old(mesh.s.log) && Foreign(m) ==> Resolved(mesh.s, m)
    {
      if side == null {
        closing := true;
        idle := ReconcileUnavailable();
        return;
      }
      if side.unavailable {
        closing := true;
        var joined: bool := *;
        if !joined {
          return false;
        }
        idle := ReconcileUnavailable();
        return;
      }
      idle := ReconcileAvailable();
      if idle {
        forall m | m in old(mesh.s.log) && Foreign(m) ensures Resolved(mesh.s, m) {
          assert Settled(mesh.s, side.events, m);
        }
      }
    }

    method ReconcileAvailable() returns (idle: bool)
      requires Valid() && side != null
      modifies this, mesh, side
      ensures Valid() && cursor >= old(cursor)
      ensures Later(old(mesh.s), mesh.s)
      ensures old(side.events) <= side.events && MeshTurns(side.events) <= MeshTurns(old(side.events)) + 1
      ensures AnsweredOn(side.events, old(mesh.s).own, mesh.s.own)
      ensures !idle ==> CauseOn(old(mesh.s), old(side.waits), side.events, mesh.s, side.waits)
      ensures idle ==> Cleared(old(mesh.s), mesh.s, side.events)
    {
      ghost var s0, e0 := mesh.s, side.events;
      var page := ReadNext();
      ghost var at := mesh.s;
      assert side.events[..|side.events|] == side.events;
      if page.None? {
        return false;
      }
      if page.value == [] {
        AllCovered(s0, at, mesh.s, side.events, cursor, page.value, cursor);
        return true;
      }
      var h := side.History();
      ValidStays(at, e0, mesh.s, side.events, cursor);
      NoNewTurns(e0, side.events[|e0|..]);
      assert e0 + side.events[|e0|..] == side.events;
      var accepted, terminal := SideMeshTurns(h);
      idle := WorkInbox(page.value, accepted, terminal, s0, h);
      assert side.events[..|h|] == h;
    }

    // Page after page, to the end of the inbox or to a message that has to wait.
    method WorkInbox(first: seq<Msg>, accepted: map<string, string>, terminal: map<string, Outcome>,
                     ghost s0: Mesh, ghost h: seq<SideEvent>) returns (idle: bool)
      requires Valid() && side != null && h <= side.events
      requires accepted == TurnsOf(h) && terminal == OutcomesOf(h)
      requires Later(s0, mesh.s) && IsPage(mesh.s.log, InInbox, cursor, first)
      modifies this, mesh, side
      ensures Valid() && cursor >= old(cursor)
      ensures Later(old(mesh.s), mesh.s) && old(side.events) <= side.events
      ensures FitAdded(h, old(mesh.s).own, mesh.s.own)
      ensures side.waits >= old(side.waits) && (!idle ==> Cause(old(mesh.s), old(side.waits), h, mesh.s, side.waits))
      ensures MeshTurns(side.events) <= MeshTurns(old(side.events)) + 1
      ensures idle ==> Cleared(s0, mesh.s, side.events)
    {
      var page := first;
      ghost var s1 := mesh.s;
      while true
        invariant Valid() && Later(s1, mesh.s) && old(side.events) <= side.events
        invariant MeshTurns(side.events) == MeshTurns(old(side.events))
        invariant IsPage(mesh.s.log, InInbox, cursor, page)
        invariant old(cursor) <= cursor <= MAX_SEQ || cursor == old(cursor)
        invariant FitAdded(h, s1.own, mesh.s.own) && side.waits >= old(side.waits)
        decreases MAX_SEQ - cursor
      {
        ghost var read := mesh.s;
        LaterTransitive(s0, s1, read);
        var go := WorkPage(page, accepted, terminal, s0, read, h);
        FitTransitive(h, s1.own, read.own, mesh.s.own);
        LaterTransitive(s1, read, mesh.s);
        if !go {
          return false;
        }
        if |page| < PAGE {
          return true;
        }
        ghost var worked := mesh.s;
        var next := ReadNext();
        LaterTransitive(s1, worked, mesh.s);
        if next.None? {
          return false;
        }
        page := next.value;
      }
    }

    method ReadNext() returns (page: Option<seq<Msg>>)
      requires Valid() && side != null
      modifies mesh
      ensures Valid() && Later(old(mesh.s), mesh.s) && mesh.s.own == old(mesh.s).own
      ensures page.None? ==> mesh.s.errors > old(mesh.s).errors
      ensures page.Some? ==> IsPage(mesh.s.log, InInbox, cursor, page.value)
    {
      page := mesh.Read(InInbox, cursor);
      ValidStays(old(mesh.s), side.events, mesh.s, side.events, cursor);
    }

    // Without a usable Assistant journal every source is released from the mesh alone.
    method ReleaseSource(m: Msg) returns (done: bool)
      requires WellFormed(mesh.s) && m in mesh.s.log && Foreign(m)
      modifies mesh, this`noticed
      ensures Later(old(mesh.s), mesh.s)
      ensures ApologiesAdded(old(mesh.s).own, mesh.s.own)
      ensures !done ==> mesh.s.errors > old(mesh.s).errors
      ensures done ==> Resolved(mesh.s, m)
    {
      var failed := mesh.ResponseFailedAlready(m.id);
      if failed {
        NoticeFailure(m);
        return true;
      }
      var passive := m.auto;
      if !passive {
        passive := HasSideTerminal(m);
      }
      if !passive {
        done := SendTerminal(m, Result, UNAVAILABLE);
        ApologyAdded(old(mesh.s).own, mesh.s.own, m);
        if !done {
          return;
        }
      }
      ghost var was := mesh.s;
      done := CloseReceipt(m);
      if Answered(was, m) {
        StillAnswered(was, mesh.s, m);
      }
    }

    method ReconcileUnavailable() returns (idle: bool)
      requires Valid()
      modifies mesh, this`noticed
      ensures Valid()
      ensures Later(old(mesh.s), mesh.s)
      ensures ApologiesAdded(old(mesh.s).own, mesh.s.own)
      ensures !idle ==> mesh.s.errors > old(mesh.s).errors
      ensures idle ==> AllReleased(old(mesh.s), mesh.s)
    {
      ghost var s0 := mesh.s;
      idle := ReleaseInbox();
      if side != null {
        ValidStays(s0, side.events, mesh.s, side.events, cursor);
      }
    }

    method ReleaseInbox() returns (idle: bool)
      requires WellFormed(mesh.s)
      modifies mesh, this`noticed
      ensures Later(old(mesh.s), mesh.s)
      ensures ApologiesAdded(old(mesh.s).own, mesh.s.own)
      ensures !idle ==> mesh.s.errors > old(mesh.s).errors
      ensures idle ==> AllReleased(old(mesh.s), mesh.s)
    {
      ghost var s0 := mesh.s;
      var c := 0;
      while true
        invariant Later(s0, mesh.s) && c <= MAX_SEQ
        invariant ApologiesAdded(s0.own, mesh.s.own)
        invariant Reached(mesh.s.log, c) && ResolvedUpTo(mesh.s, c)
        decreases MAX_SEQ - c
      {
        ghost var s1 := mesh.s;
        var page := mesh.Read(InInbox, c);
        LaterTransitive(s0, s1, mesh.s);
        ResolvedUpToStays(s1, mesh.s, c);
        if page.None? {
          return false;
        }
        ghost var at := mesh.s;
        var done := ReleasePage(page.value, at, c);
        LaterTransitive(s0, at, mesh.s);
        ApologiesTransitive(s0.own, at.own, mesh.s.own);
        if !done {
          return false;
        }
        if |page.value| < PAGE {
          AllResolved(s0, at, mesh.s, c, page.value);
          return true;
        }
        c := page.value[PAGE - 1].num;
      }
    }

    method ReleasePage(page: seq<Msg>, ghost at: Mesh, ghost c: nat) returns (done: bool)
      requires WellFormed(mesh.s) && mesh.s == at
      requires IsPage(at.log, InInbox, c, page) && Reached(at.log, c) && ResolvedUpTo(at, c)
      modifies mesh, this`noticed
      ensures Later(at, mesh.s)
      ensures ApologiesAdded(at.own, mesh.s.own)
      ensures !done ==> mesh.s.errors > at.errors
      ensures done ==> ResolvedUpTo(mesh.s, if page == [] then c else page[|page| - 1].num)
      ensures done ==> Reached(mesh.s.log, if page == [] then c else page[|page| - 1].num)
    {
      ghost var upTo := c;
      for k := 0 to |page|
        invariant Later(at, mesh.s) && ApologiesAdded(at.own, mesh.s.own)
        invariant upTo == if k == 0 then c else page[k - 1].num
        invariant ResolvedUpTo(mesh.s, upTo) && Reached(mesh.s.log, upTo)
      {
        var m := page[k];
        PageFrontResolved(at, mesh.s, c, upTo, page, k);
        if m.sender != SIDE {
          ghost var s0 := mesh.s;
          done := ReleaseSource(m);
          ApologiesTransitive(at.own, s0.own, mesh.s.own);
          if !done {
            return;
          }
          ResolvedUpToStays(s0, mesh.s, m.num - 1);
        }
        FrontResolved(mesh.s, m);
        upTo := m.num;
      }
      done := true;
    }
  }

  lemma TerminalFits(h: seq<SideEvent>, before: seq<Own>, after: seq<Own>, m: Msg, outcome: Outcome)
    requires m.id in TurnsOf(h) && TurnsOf(h)[m.id] in OutcomesOf(h) && outcome == OutcomesOf(h)[TurnsOf(h)[m.id]]
    requires outcome.completed && !BlankText(outcome.text) ==> SentOnly(before, after, m, Reply, Sendable(outcome.text))
    requires !outcome.completed || BlankText(outcome.text) ==> SentOnly(before, after, m, Result, FAILURE)
    requires Foreign(m) && !m.auto
    ensures FitAdded(h, before, after)
  {
    OutcomeMeans(h, m.id);
  }

  lemma RefusalFits(h: seq<SideEvent>, before: seq<Own>, after: seq<Own>, m: Msg)
    requires m.id !in TurnsOf(h) && Foreign(m) && !m.auto && SentOnly(before, after, m, Result, FAILURE)
    ensures FitAdded(h, before, after)
  {
    TurnsExact(h, m.id);
    forall text ensures !Succeeded(h, m.id, text) {
    }
  }

  lemma ApologyAdded(before: seq<Own>, after: seq<Own>, m: Msg)
    requires Foreign(m) && !m.auto && SentOnly(before, after, m, Result, UNAVAILABLE)
    ensures ApologiesAdded(before, after)
  {
  }

  lemma Unmoved(a: Mesh, b: Mesh, events: seq<SideEvent>)
    requires Sound(a, events) && Later(a, b)
    ensures Sound(b, events)
  {
    SoundStays(a, events, b, events);
  }

  lemma StillAnswered(a: Mesh, b: Mesh, m: Msg)
    requires Later(a, b) && Answered(a, m)
    ensures Answered(b, m)
  {
    var r :| r in a.log && IsReply(r, m);
    assert r in b.log;
  }

  lemma TurnFinished(h: seq<SideEvent>, events: seq<SideEvent>, source: string)
    requires h <= events && source in TurnsOf(h) && TurnsOf(h)[source] in OutcomesOf(h)
    ensures Finished(events, source)
  {
    TurnsExact(h, source);
    var turn := TurnsOf(h)[source];
    OutcomesExact(h, turn);
    var i: nat :| LastFor(h, i, (e: SideEvent) => Starts(e, source)) && h[i].turn == turn;
    var j :| 0 <= j < |h| && Ends(h[j]) && h[j].turn == turn;
    assert Starts(events[i], source) && Ends(events[j]) && events[j].turn == events[i].turn;
  }

  // What the admission of a source leaves in the journal.
  lemma Admitted(s: Mesh, was: seq<SideEvent>, before: seq<SideEvent>, events: seq<SideEvent>, m: Msg, turn: string)
    requires Sound(s, was) && was <= before && NoSources(before[|was|..])
    requires m in s.log && Foreign(m) && m.id != "" && m.num > 0 && SettledUpTo(s, was, m.num - 1)
    requires events == before
      || (events == before + [TurnAccepted(turn, ClientOf(m.id), m.id, Ask(m.body, m.thread, m.sender))]
          && forall e :: e in before && e.TurnAccepted? ==> e.client != ClientOf(m.id))
    ensures Sound(s, before) && Sound(s, events) && was <= events
    ensures MeshTurns(before) == MeshTurns(was)
    ensures MeshTurns(events) <= MeshTurns(was) + 1
  {
    SoundStays(s, was, s, before);
    assert was + before[|was|..] == before;
    NoNewTurns(was, before[|was|..]);
    UpToStays(s, was, s, before, m.num - 1);
    if events != before {
      AdmittedSound(s, before, m, turn);
      assert events[..|events| - 1] == before;
    }
  }

  lemma ValidStays(a: Mesh, ea: seq<SideEvent>, b: Mesh, eb: seq<SideEvent>, cursor: nat)
    requires Sound(a, ea) && SettledUpTo(a, ea, cursor) && Reached(a.log, cursor)
    requires Later(a, b) && ea <= eb && NoSources(eb[|ea|..])
    ensures Sound(b, eb) && SettledUpTo(b, eb, cursor) && Reached(b.log, cursor)
  {
    SoundStays(a, ea, b, eb);
    UpToStays(a, ea, b, eb, cursor);
  }

  // A page that is not full reaches the end of the inbox as it was read.
  lemma AllCovered(s0: Mesh, at: Mesh, now: Mesh, events: seq<SideEvent>, c: nat, page: seq<Msg>, cursor: nat)
    requires Later(s0, at) && Later(at, now)
    requires IsPage(at.log, InInbox, c, page) && |page| < PAGE
    requires cursor == (if page == [] then c else page[|page| - 1].num)
    requires SettledUpTo(now, events, cursor)
    ensures Cleared(s0, now, events)
  {
    forall m | m in s0.log && Foreign(m) ensures Settled(now, events, m) && Resolved(now, m) {
      assert m in at.log && m in now.log;
      if m.num > c {
        LastOfPage(at.log, c, page, m);
      }
    }
  }

  lemma AllResolved(s0: Mesh, at: Mesh, now: Mesh, c: nat, page: seq<Msg>)
    requires Later(s0, at) && Later(at, now)
    requires IsPage(at.log, InInbox, c, page) && |page| < PAGE
    requires ResolvedUpTo(now, if page == [] then c else page[|page| - 1].num)
    ensures AllReleased(s0, now)
  {
    forall m | m in s0.log && Foreign(m) ensures Resolved(now, m) {
      assert m in at.log && m in now.log;
      if m.num > c {
        LastOfPage(at.log, c, page, m);
      }
    }
  }

  lemma LastOfPage(log: seq<Msg>, c: nat, page: seq<Msg>, m: Msg)
    requires IsPage(log, InInbox, c, page) && |page| < PAGE
    requires m in log && m.inbox && m.num > c
    ensures m in page && m.num <= page[|page| - 1].num
  {
    assert m in page;
    var j :| 0 <= j < |page| && page[j] == m;
    if j < |page| - 1 {
      assert Ascends(page, j, |page| - 1);
    }
  }

  // What soundness says of one source: it has at most one turn, and when it has one, every foreign
  // message before it in the inbox has its outcome.
  lemma TurnOfSource(s: Mesh, events: seq<SideEvent>, i: nat, j: nat, m: Msg)
    requires Sound(s, events) && i < |events| && j < |events|
    requires Starts(events[i], m.id) && Starts(events[j], m.id) && m in s.log
    ensures i == j
    ensures Foreign(m) && events[i].ask == Ask(m.body, m.thread, m.sender)
    ensures forall x :: x in s.log && Foreign(x) && x.num < m.num ==> Settled(s, events, x)
  {
    assert i < j ==> SourcesDiffer(events, i, j);
    assert j < i ==> SourcesDiffer(events, j, i);
    assert events[i] in events && HasSource(s, events[i]);
    var k :| k in s.log && Foreign(k) && k.id == events[i].source && events[i].ask == Ask(k.body, k.thread, k.sender);
    SameMessage(s.log, k, m);
    assert m.num > 0;
    assert SettledUpTo(s, events, m.num - 1);
  }

  // Bridge after bridge over the same two journals, each making its passes and then dying: what
  // one pass keeps holds over the whole life of the run.
  method Lives(mesh: MeshPort, side: SidePort, passes: seq<nat>)
    requires Sound(mesh.s, side.events)
    modifies mesh, side
    ensures Sound(mesh.s, side.events)
    ensures Later(old(mesh.s), mesh.s) && old(side.events) <= side.events
    ensures MeshTurns(side.events) <= MeshTurns(old(side.events)) + Sum(passes)
    ensures AllMeant(side.events, old(mesh.s).own, mesh.s.own)
  {
    for life := 0 to |passes|
      invariant Sound(mesh.s, side.events)
      invariant Later(old(mesh.s), mesh.s) && old(side.events) <= side.events
      invariant MeshTurns(side.events) <= MeshTurns(old(side.events)) + Sum(passes[..life])
      invariant AllMeant(side.events, old(mesh.s).own, mesh.s.own)
    {
      var b := new Bridge(mesh, side);
      ghost var before := side.events;
      var n := 0;
      while n < passes[life]
        invariant n <= passes[life] && b.Valid() && b.mesh == mesh && b.side == side && fresh(b)
        invariant Later(old(mesh.s), mesh.s) && old(side.events) <= side.events
        invariant MeshTurns(side.events) <= MeshTurns(before) + n
        invariant AllMeant(side.events, old(mesh.s).own, mesh.s.own)
      {
        ghost var events, sent := side.events, mesh.s.own;
        var _ := b.Reconcile();
        MeantAdded(side.events, sent, mesh.s.own);
        MeantTransitive(events, side.events, old(mesh.s).own, sent, mesh.s.own);
        n := n + 1;
      }
      assert passes[..life + 1][..life] == passes[..life];
    }
    assert passes[..|passes|] == passes;
  }

  function Sum(passes: seq<nat>): nat {
    if passes == [] then 0 else Sum(passes[..|passes| - 1]) + passes[|passes| - 1]
  }
}
