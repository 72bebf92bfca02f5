/** The Chrome pipe: reassembling NUL-terminated messages from reads of any size, and giving
    requests of several clients ids that never collide. */
module CdpProxy {
  import opened Framing
  import opened Options

  const MAX_FRAME_BYTES: nat := 8388608

  const NUL: Byte := 0

  // ----- Framing -----

  class PipeFramer {
    var buf: seq<Byte>

    constructor ()
      ensures buf == []
    {
      buf := [];
    }

    /** Emits the messages completed by data; the error is about the unterminated remainder only. */
    method FeedChecked(data: seq<Byte>) returns (msgs: seq<seq<Byte>>, tooLarge: bool)
      modifies this
      ensures Cutting(msgs, buf) == Cut(old(buf) + data, NUL)
      ensures tooLarge <==> |buf| > MAX_FRAME_BYTES
    {
      buf := buf + data;
      msgs := [];
      while true
        invariant var tail := Cut(buf, NUL);
          Cut(old(buf) + data, NUL) == Cutting(msgs + tail.pieces, tail.rest)
        decreases |buf|
      {
        if NUL !in buf {
          CutFree(buf, NUL);
          return msgs, |buf| > MAX_FRAME_BYTES;
        }
        var i := IndexOf(buf, NUL);
        CutTerminated(buf[..i], buf[i + 1..], NUL);
        assert buf == buf[..i] + [NUL] + buf[i + 1..];
        msgs := msgs + [buf[..i]];
        buf := buf[i + 1..];
      }
    }
  }

  function EncodeFrame(msg: seq<Byte>): (frame: seq<Byte>)
  {
    msg + [NUL]
  }

  function EncodeAll(msgs: seq<seq<Byte>>): seq<Byte>
  {
    if msgs == [] then [] else EncodeFrame(msgs[0]) + EncodeAll(msgs[1..])
  }

  /** What reading NUL-free messages back gives: those messages, and nothing left over. */
  lemma {:induction false} FramesRoundTrip(msgs: seq<seq<Byte>>)
    requires forall i :: 0 <= i < |msgs| ==> Free(msgs[i], NUL)
    ensures Cut(EncodeAll(msgs), NUL) == Cutting(msgs, [])
  {
    if msgs != [] {
      FramesRoundTrip(msgs[1..]);
      CutTerminated(msgs[0], EncodeAll(msgs[1..]), NUL);
    }
  }

  /** A whole read session: one FeedChecked per chunk, abandoned at the first error. */
  datatype Session = Session(msgs: seq<seq<Byte>>, buf: seq<Byte>, failed: bool)

  function Feed(s: Session, chunk: seq<Byte>): Session
  {
    if s.failed then s else
      var c := Cut(s.buf + chunk, NUL);
      Session(s.msgs + c.pieces, c.rest, |c.rest| > MAX_FRAME_BYTES)
  }

  function FeedAll(chunks: seq<seq<Byte>>): Session
  {
    if chunks == [] then Session([], [], false)
    else Feed(FeedAll(chunks[..|chunks| - 1]), chunks[|chunks| - 1])
  }

  function Stream(chunks: seq<seq<Byte>>): seq<Byte>
  {
    if chunks == [] then [] else Stream(chunks[..|chunks| - 1]) + chunks[|chunks| - 1]
  }

  /** However the stream is split into reads, a session that does not fail has emitted the NUL-split of the
      whole stream and holds its remainder. */
  lemma {:induction false} ChunkIndependent(chunks: seq<seq<Byte>>)
    requires !FeedAll(chunks).failed
    ensures var c := Cut(Stream(chunks), NUL);
      FeedAll(chunks) == Session(c.pieces, c.rest, false)
  {
    if chunks != [] {
      var front, last := chunks[..|chunks| - 1], chunks[|chunks| - 1];
      ChunkIndependent(front);
      CutAppend(Stream(front), last, NUL);
    }
  }

  /** No message and no remainder of the stream is over the limit. */
  predicate FitsLimit(stream: seq<Byte>)
  {
    var c := Cut(stream, NUL);
    |c.rest| <= MAX_FRAME_BYTES && forall i :: 0 <= i < |c.pieces| ==> |c.pieces[i]| <= MAX_FRAME_BYTES
  }

  lemma {:induction false} FitsLimitPush(front: seq<Byte>, b: Byte)
    ensures FitsLimit(front + [b]) <==> FitsLimit(front) && (b == NUL || |Cut(front, NUL).rest| < MAX_FRAME_BYTES)
  {
    CutPush(front, b, NUL);
    var c, after := Cut(front, NUL), Cut(front + [b], NUL);
    if FitsLimit(front + [b]) {
      assert forall i :: 0 <= i < |c.pieces| ==> c.pieces[i] == after.pieces[i];
      assert b == NUL ==> after.pieces[|c.pieces|] == c.rest;
    }
  }

  lemma {:induction false} FitsLimitPrefix(front: seq<Byte>, more: seq<Byte>)
    requires FitsLimit(front + more)
    ensures FitsLimit(front)
    decreases |more|
  {
    if more == [] {
      assert front + more == front;
    } else {
      var init := front + more[..|more| - 1];
      assert front + more == init + [more[|more| - 1]];
      FitsLimitPush(init, more[|more| - 1]);
      FitsLimitPrefix(front, more[..|more| - 1]);
    }
  }

  lemma {:induction false} FittingNeverFails(chunks: seq<seq<Byte>>)
    requires FitsLimit(Stream(chunks))
    ensures !FeedAll(chunks).failed
  {
    if chunks != [] {
      var front, last := chunks[..|chunks| - 1], chunks[|chunks| - 1];
      FitsLimitPrefix(Stream(front), last);
      FittingNeverFails(front);
      ChunkIndependent(front);
      CutAppend(Stream(front), last, NUL);
    }
  }

  /** Single-byte reads. */
  function Bytewise(stream: seq<Byte>): (chunks: seq<seq<Byte>>)
    ensures Stream(chunks) == stream
  {
    if stream == [] then [] else
      var front := Bytewise(stream[..|stream| - 1]);
      var chunks := front + [[stream[|stream| - 1]]];
      assert chunks[..|chunks| - 1] == front;
      chunks
  }

  lemma {:induction false} OverlongFailsBytewise(stream: seq<Byte>)
    requires !FitsLimit(stream)
    ensures FeedAll(Bytewise(stream)).failed
  {
    if stream != [] {
      var front, b := stream[..|stream| - 1], stream[|stream| - 1];
      assert stream == front + [b];
      assert Bytewise(stream) == Bytewise(front) + [[b]];
      assert Bytewise(stream)[..|Bytewise(front)|] == Bytewise(front);
      if !FitsLimit(front) {
        OverlongFailsBytewise(front);
      } else if !FeedAll(Bytewise(front)).failed {
        ChunkIndependent(Bytewise(front));
        FitsLimitPush(front, b);
        CutPush(Cut(front, NUL).rest, b, NUL);
        CutFreePieces(front, NUL);
        CutFree(Cut(front, NUL).rest, NUL);
      }
    }
  }

  /** Whether a stream gets through does depend on the reads unless it fits the limit throughout. */
  lemma LimitExact(stream: seq<Byte>)
    ensures (forall chunks: seq<seq<Byte>> :: Stream(chunks) == stream ==> !FeedAll(chunks).failed) <==> FitsLimit(stream)
  {
    if FitsLimit(stream) {
      forall chunks: seq<seq<Byte>> | Stream(chunks) == stream
        ensures !FeedAll(chunks).failed
      {
        FittingNeverFails(chunks);
      }
    } else {
      OverlongFailsBytewise(stream);
      assert Stream(Bytewise(stream)) == stream;
    }
  }

  // ----- Routing -----

  type Client = nat

  type LocalID = string

  /** A CDP message as the proxy reads it. A message that is not an object, or whose object has no id, is kept verbatim. */
  datatype Message =
    | Opaque(text: string)
    | Plain(body: string)
    | WithLocalID(id: LocalID, body: string)
    | WithGlobalID(gid: int, body: string)

  const MAX_ID := 0x7FFF_FFFF_FFFF_FFFF

  /** The id of a pipe message as a 64-bit integer: a JSON null reads as 0, any other value that is none does not read. */
  function DecodedID(msg: Message): Option<int>
  {
    match msg
    case WithGlobalID(gid, _) => if -MAX_ID - 1 <= gid <= MAX_ID then Some(gid) else None
    case WithLocalID(id, _) => if id == "null" then Some(0) else None
    case _ => None
  }

  datatype Pending = Pending(client: Client, localID: LocalID)

  datatype Route = Dropped | Broadcast(payload: Message) | To(client: Client, payload: Message)

  class Proxy {
    var nextID: int
    var pending: map<int, Pending>

    ghost predicate Valid()
      reads this
    {
      0 <= nextID && forall gid :: gid in pending ==> 1 <= gid <= nextID
    }

    constructor ()
      ensures Valid() && nextID == 0 && pending == map[]
    {
      nextID := 0;
      pending := map[];
    }

    /** A client's own id may be any JSON value, a number included. */
    method FromClient(client: Client, msg: Message) returns (out: Message)
      requires Valid()
      modifies this
      ensures Valid()
      ensures State(nextID, pending) == Sent(State(old(nextID), old(pending)), client, msg).0
      ensures out == Sent(State(old(nextID), old(pending)), client, msg).1
    {
      match msg {
        case Opaque(_) => out := msg;
        case Plain(_) => out := msg;
        case WithLocalID(id, body) =>
          nextID := nextID + 1;
          pending := pending[nextID := Pending(client, id)];
          out := WithGlobalID(nextID, body);
        case WithGlobalID(gid, body) =>
          nextID := nextID + 1;
          pending := pending[nextID := Pending(client, NumberID(gid))];
          out := WithGlobalID(nextID, body);
      }
    }

    method FromChrome(msg: Message) returns (route: Route)
      requires Valid()
      modifies this
      ensures Valid()
      ensures State(nextID, pending) == Answered(State(old(nextID), old(pending)), msg).0
      ensures route == Answered(State(old(nextID), old(pending)), msg).1
    {
      var gid := DecodedID(msg);
      if gid.None? {
        return Broadcast(msg);
      }
      if gid.value !in pending {
        return Dropped;
      }
      var req := pending[gid.value];
      pending := pending - {gid.value};
      route := To(req.client, WithLocalID(req.localID, msg.body));
    }

    /** The pending requests are visited in any order. */
    method Disconnect(client: Client)
      requires Valid()
      modifies this
      ensures Valid()
      ensures State(nextID, pending) == Left(State(old(nextID), old(pending)), client)
    {
      var rest := pending.Keys;
      while exists gid: int :: gid in rest
        invariant rest <= old(pending).Keys && nextID == old(nextID)
        invariant pending == map gid | gid in old(pending) && (gid in rest || old(pending)[gid].client != client) :: old(pending)[gid]
        decreases rest
      {
        var gid: int :| gid in rest;
        if pending[gid].client == client {
          pending := pending - {gid};
        }
        rest := rest - {gid};
      }
    }
  }

  /** The JSON text of a number a client chose as its own id. */
  function NumberID(n: int): LocalID
    decreases if n < 0 then 1 - n else n
  {
    if n < 0 then "-" + NumberID(-n)
    else if n < 10 then [['0', '1', '2', '3', '4', '5', '6', '7', '8', '9'][n]]
    else NumberID(n / 10) + NumberID(n % 10)
  }

  datatype State = State(nextID: int, pending: map<int, Pending>)

  function LocalIDOf(msg: Message): LocalID
    requires msg.WithLocalID? || msg.WithGlobalID?
  {
    if msg.WithLocalID? then msg.id else NumberID(msg.gid)
  }

  function Sent(s: State, client: Client, msg: Message): (State, Message)
  {
    if msg.Opaque? || msg.Plain? then (s, msg) else
      var gid := s.nextID + 1;
      (State(gid, s.pending[gid := Pending(client, LocalIDOf(msg))]), WithGlobalID(gid, msg.body))
  }

  function Answered(s: State, msg: Message): (State, Route)
  {
    match DecodedID(msg)
    case None => (s, Broadcast(msg))
    case Some(gid) =>
      if gid !in s.pending then (s, Dropped)
      else
        var req := s.pending[gid];
        (State(s.nextID, s.pending - {gid}), To(req.client, WithLocalID(req.localID, msg.body)))
  }

  function Left(s: State, client: Client): State
  {
    State(s.nextID, map gid | gid in s.pending && s.pending[gid].client != client :: s.pending[gid])
  }

  // ----- Whole runs -----

  datatype Event =
    | Request(client: Client, msg: Message)
    | FromPipe(msg: Message)
    | Disconnected(client: Client)

  function Step(s: State, e: Event): State
  {
    match e
    case Request(client, msg) => Sent(s, client, msg).0
    case FromPipe(msg) => Answered(s, msg).0
    case Disconnected(client) => Left(s, client)
  }

  function Run(es: seq<Event>): State
  {
    if es == [] then State(0, map[]) else Step(Run(es[..|es| - 1]), es[|es| - 1])
  }

  /** Event i of the run was the request that took the id gid. */
  predicate Issues(es: seq<Event>, i: nat, gid: int)
    requires i < |es|
  {
    && es[i].Request?
    && (es[i].msg.WithLocalID? || es[i].msg.WithGlobalID?)
    && Run(es[..i]).nextID + 1 == gid
  }

  /** Event i of the run was a pipe message carrying the id gid. */
  predicate Answers(es: seq<Event>, i: nat, gid: int)
    requires i < |es|
  {
    es[i].FromPipe? && DecodedID(es[i].msg) == Some(gid)
  }

  /** The request i that took gid is still owed its answer at the end of the run. */
  predicate Owed(es: seq<Event>, i: nat, gid: int)
    requires i < |es|
  {
    && Issues(es, i, gid)
    && forall k :: i < k < |es| ==> !Answers(es, k, gid) && es[k] != Disconnected(es[i].client)
  }

  lemma {:induction false} IDsGrow(es: seq<Event>, i: nat)
    requires i <= |es|
    ensures 0 <= Run(es[..i]).nextID <= Run(es).nextID
    ensures i < |es| && (exists gid :: Issues(es, i, gid)) ==> Run(es[..i]).nextID < Run(es).nextID
    decreases |es|
  {
    if i == |es| {
      assert es[..i] == es;
      if es != [] { IDsGrow(es[..|es| - 1], |es| - 1); assert es[..|es| - 1][..|es| - 1] == es[..|es| - 1]; }
    } else {
      var before := es[..|es| - 1];
      IDsGrow(before, i);
      assert before[..i] == es[..i];
      if i < |before| && exists gid :: Issues(es, i, gid) {
        var gid :| Issues(es, i, gid);
        assert Issues(before, i, gid);
      }
    }
  }

  /** One more event pays a debt only if it is the answer or the disconnection. */
  lemma OwedBefore(es: seq<Event>, i: nat, gid: int)
    requires i < |es| - 1
    ensures var n, before := |es| - 1, es[..|es| - 1];
      && (Issues(es, i, gid) <==> Issues(before, i, gid))
      && (Owed(es, i, gid) <==> Owed(before, i, gid) && !Answers(es, n, gid) && es[n] != Disconnected(es[i].client))
  {
    var n, before := |es| - 1, es[..|es| - 1];
    assert before[..i] == es[..i];
    if Owed(before, i, gid) && !Answers(es, n, gid) && es[n] != Disconnected(es[i].client) {
      forall k | i < k < |es|
        ensures !Answers(es, k, gid) && es[k] != Disconnected(es[i].client)
      {
        if k < n { assert !Answers(before, k, gid) && before[k] != Disconnected(before[i].client); }
      }
    }
    if Owed(es, i, gid) {
      forall k | i < k < n
        ensures !Answers(before, k, gid) && before[k] != Disconnected(before[i].client)
      {
        assert !Answers(es, k, gid) && es[k] != Disconnected(es[i].client);
      }
    }
  }

  lemma IssuedBelow(es: seq<Event>, i: nat, gid: int)
    requires i < |es| - 1 && Issues(es, i, gid)
    ensures gid <= Run(es[..|es| - 1]).nextID
  {
    IDsGrow(es[..|es| - 1], i + 1);
    assert es[..|es| - 1][..i + 1] == es[..i + 1];
    assert es[..i + 1][..i] == es[..i];
  }

  /** The pending map is, at every moment, exactly the requests still owed an answer. */
  lemma {:induction false} PendingExact(es: seq<Event>, gid: int)
    ensures gid in Run(es).pending <==> exists i :: 0 <= i < |es| && Owed(es, i, gid)
    ensures forall i :: 0 <= i < |es| && Owed(es, i, gid) ==>
      gid in Run(es).pending && Run(es).pending[gid] == Pending(es[i].client, LocalIDOf(es[i].msg))
    ensures gid in Run(es).pending ==> gid <= Run(es).nextID
  {
    if es != [] {
      var n := |es| - 1;
      var before := es[..n];
      PendingExact(before, gid);
      IDsGrow(es, n);
      forall i | 0 <= i < n
        ensures Issues(es, i, gid) <==> Issues(before, i, gid)
        ensures Owed(es, i, gid) <==> Owed(before, i, gid) && !Answers(es, n, gid) && es[n] != Disconnected(es[i].client)
        ensures Issues(es, i, gid) ==> gid <= Run(before).nextID
      {
        OwedBefore(es, i, gid);
        if Issues(es, i, gid) { IssuedBelow(es, i, gid); }
      }
      if gid in Run(es).pending {
        if Issues(es, n, gid) && es[n].Request? && Run(before).nextID + 1 == gid {
          assert Owed(es, n, gid);
        } else {
          assert gid in Run(before).pending;
          var i :| 0 <= i < |before| && Owed(before, i, gid);
          assert Owed(es, i, gid);
        }
      }
    }
  }

  /** Main result: in any run, a pipe message is delivered to one client exactly when that client's request is still
      owed its answer, and then the client's own id is restored; an id that is not owed is dropped, never broadcast. */
  lemma RoutingExact(es: seq<Event>, msg: Message, gid: int)
    requires DecodedID(msg) == Some(gid)
    ensures var route := Answered(Run(es), msg).1;
      && !route.Broadcast?
      && (route.To? <==> exists i :: 0 <= i < |es| && Owed(es, i, gid))
      && (forall i :: 0 <= i < |es| && Owed(es, i, gid) ==>
            route == To(es[i].client, WithLocalID(LocalIDOf(es[i].msg), msg.body)))
  {
    PendingExact(es, gid);
  }

  /** An id is issued once, so the request an answer is matched with is the only one that ever carried it. */
  lemma {:induction false} IssuedOnce(es: seq<Event>, i: nat, j: nat, gid: int)
    requires i < j < |es| && Issues(es, i, gid)
    ensures !Issues(es, j, gid)
  {
    IDsGrow(es[..j], i);
    assert es[..j][..i] == es[..i];
    assert Issues(es[..j], i, gid);
  }

  /** At most once: after an answer has been delivered, any later message with the same id is dropped. */
  lemma {:induction false} AnsweredAtMostOnce(es: seq<Event>, k: nat, msg: Message, gid: int)
    requires DecodedID(msg) == Some(gid) && k < |es| && Answers(es, k, gid)
    requires Answered(Run(es[..k]), es[k].msg).1.To?
    ensures Answered(Run(es), msg).1 == Dropped
  {
    PendingExact(es[..k], gid);
    var i :| 0 <= i < k && Owed(es[..k], i, gid);
    assert es[..k][..i] == es[..i];
    assert Issues(es, i, gid);
    PendingExact(es, gid);
    forall j | k < j < |es|
      ensures !Issues(es, j, gid)
    {
      IssuedOnce(es, i, j, gid);
    }
  }

  /** After a disconnect nothing of that client's earlier requests is ever delivered. */
  lemma {:induction false} NothingAfterDisconnect(es: seq<Event>, k: nat, i: nat, msg: Message, gid: int)
    requires DecodedID(msg) == Some(gid) && i < k < |es| && Issues(es, i, gid) && es[k] == Disconnected(es[i].client)
    ensures Answered(Run(es), msg).1 == Dropped
  {
    PendingExact(es, gid);
    forall j | 0 <= j < |es| && j != i
      ensures !Issues(es, j, gid)
    {
      if j < i && Issues(es, j, gid) {
        IssuedOnce(es, j, i, gid);
      } else if i < j {
        IssuedOnce(es, i, j, gid);
      }
    }
  }

  // ----- There and back -----

  function DigitsValue(s: string): int
  {
    if s == [] then 0 else DigitsValue(s[..|s| - 1]) * 10 + (s[|s| - 1] as int - '0' as int)
  }

  /** The number a JSON text of digits stands for. */
  function NumeralValue(s: string): int
  {
    if s != [] && s[0] == '-' then -DigitsValue(s[1..]) else DigitsValue(s)
  }

  lemma {:induction false} NumeralDigits(n: nat)
    ensures DigitsValue(NumberID(n)) == n && |NumberID(n)| > 0
    ensures forall k :: 0 <= k < |NumberID(n)| ==> '0' <= NumberID(n)[k] <= '9'
  {
    if n >= 10 {
      NumeralDigits(n / 10);
      NumeralDigits(n % 10);
      assert NumberID(n)[..|NumberID(n)| - 1] == NumberID(n / 10);
    } else {
      assert NumberID(n)[..0] == [];
    }
  }

  lemma NumeralOf(s: string, n: int)
    requires DigitsValue(s) == n && s != [] && s[0] != '-'
    ensures NumeralValue(s) == n && NumeralValue("-" + s) == -n
  {
    assert ("-" + s)[1..] == s;
  }

  lemma NumeralExact(n: int)
    ensures NumeralValue(NumberID(n)) == n
  {
    var m: nat := if n < 0 then -n else n;
    NumeralDigits(m);
    NumeralOf(NumberID(m), m);
  }

  predicate HasID(msg: Message)
  {
    msg.WithLocalID? || msg.WithGlobalID?
  }

  /** The payload carries the id of the request, a number in digits. */
  predicate CarriesID(payload: Message, msg: Message)
  {
    payload.WithLocalID?
    && (msg.WithLocalID? ==> payload.id == msg.id)
    && (msg.WithGlobalID? ==> NumeralValue(payload.id) == msg.gid)
  }

  /** Nothing among these events answers the id or takes its client away. */
  predicate LeavesOpen(more: seq<Event>, gid: int, client: Client)
  {
    forall k :: 0 <= k < |more| ==>
      more[k] != Disconnected(client) && !(more[k].FromPipe? && more[k].msg.WithGlobalID? && more[k].msg.gid == gid)
  }

  /** Main result: after any run, what goes to Chrome for a request with an id is the request's body under an id of the
      proxy's own, and whatever happens then, the first answer under that very id goes to that client alone, with the
      client's own id and the answer's body, unless the client has left. */
  lemma RoundTrip(es: seq<Event>, client: Client, msg: Message, more: seq<Event>, answer: string)
    requires HasID(msg) && Run(es).nextID < MAX_ID
    ensures var out := Sent(Run(es), client, msg).1;
      && out.WithGlobalID? && out.body == msg.body
      && (LeavesOpen(more, out.gid, client) ==>
            var route := Answered(Run(es + [Request(client, msg)] + more), WithGlobalID(out.gid, answer)).1;
            route.To? && route.client == client && CarriesID(route.payload, msg) && route.payload.body == answer)
  {
    var out := Sent(Run(es), client, msg).1;
    IDsPositive(es);
    if msg.WithGlobalID? { NumeralExact(msg.gid); }
    if LeavesOpen(more, out.gid, client) {
      var all, i := es + [Request(client, msg)] + more, |es|;
      assert all[..i] == es && all[i] == Request(client, msg);
      forall k | i < k < |all|
        ensures !Answers(all, k, out.gid) && all[k] != Disconnected(client)
      {
        assert all[k] == more[k - i - 1];
      }
      assert Owed(all, i, out.gid);
      PendingExact(all, out.gid);
    }
  }

  /** What has no id goes through as it is, in both directions, and leaves no trace. */
  lemma WithoutID(s: State, client: Client, msg: Message)
    requires !HasID(msg)
    ensures Sent(s, client, msg) == (s, msg) && Answered(s, msg) == (s, Broadcast(msg))
  {
  }

  lemma {:induction false} IDsPositive(es: seq<Event>)
    ensures Run(es).nextID >= 0 && forall gid :: gid in Run(es).pending ==> gid >= 1
  {
    if es != [] { IDsPositive(es[..|es| - 1]); }
  }

  /** A pipe message whose id is no integer of 64 bits is broadcast as it is, except that in every run one with the id null
      is dropped. */
  lemma StrangeID(es: seq<Event>, msg: Message)
    requires msg.WithLocalID? || (msg.WithGlobalID? && !(-0x8000_0000_0000_0000 <= msg.gid <= 0x7FFF_FFFF_FFFF_FFFF))
    ensures Answered(Run(es), msg) == (Run(es), if msg == WithLocalID("null", msg.body) then Dropped else Broadcast(msg))
  {
    IDsPositive(es);
  }
}
