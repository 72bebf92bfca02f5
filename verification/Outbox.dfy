// The durable outbox of the Telegram bot: an item is marked as attempted before it is sent, and
// every attempt repeats the same request, so that the receiver can recognise a replay.
module Outbox {
  import opened Options

  datatype Status = Queued | Unknown | Accepted | Failed | Replied

  datatype Kind = Mesh | Discussion | Attach | OtherKind

  datatype Content = Content(
    text: string,
    stage: string,
    inReplyTo: string,
    messageKind: string,
    interrupt: bool,
    profile: string,
    scope: string,
    mode: string,
    instruction: string,
    firstMessage: string)

  datatype Item = Item(
    run: string,
    kind: Kind,
    requestID: string,
    content: Content,
    recipients: seq<string>,
    thread: string,
    status: Status,
    attempted: bool,
    message: string,
    recipientStatus: map<string, Status>)

  type Items = map<string, Item>

  datatype Request =
    | MeshSend(requestID: string, thread: string, recipients: seq<string>, kind: string, inReplyTo: string, body: string, stage: string)
    | DiscussionPost(requestID: string, stage: string, body: string, mentions: seq<string>, interrupt: bool)
    | AttachAndSend(requestID: string, profile: string, scope: string, stage: string, mode: string, instruction: string,
                    firstMessage: Option<string>, originStage: string)

  datatype Receipt = Receipt(thread: string, message: string, participant: string)

  // The request of one attempt; an item of another kind has none.
  function RequestOf(o: Item): Option<Request> {
    var c := o.content;
    match o.kind
    case Mesh =>
      Some(MeshSend(o.requestID, o.thread, o.recipients, if c.messageKind == "" then "message" else c.messageKind,
                    c.inReplyTo, c.text, c.stage))
    case Discussion => Some(DiscussionPost(o.requestID, c.stage, c.text, o.recipients, c.interrupt))
    case Attach =>
      Some(AttachAndSend(o.requestID, c.profile, c.scope, if c.scope == "run" then "" else c.stage, c.mode, c.instruction,
                         if c.firstMessage == "" then None else Some(c.firstMessage), c.stage))
    case OtherKind => None
  }

  // ---------------------------------------------------------------------
  // What one update does to one item
  // ---------------------------------------------------------------------

  function AllSetTo(recipients: seq<string>, status: Status): map<string, Status> {
    map r | r in recipients :: status
  }

  function NewItem(id: string, run: string, kind: Kind, content: Content, thread: string, recipients: seq<string>): Item {
    Item(run, kind, id, content, recipients, thread, Queued, false, "", AllSetTo(recipients, Queued))
  }

  predicate Pending(o: Item) {
    o.status == Queued || o.status == Unknown
  }

  predicate Landed(o: Item) {
    o.status == Accepted || o.status == Replied
  }

  function MarkedFailed(o: Item): Item {
    o.(status := Failed, recipientStatus := o.recipientStatus + AllSetTo(o.recipients, Failed))
  }

  function MarkedAttempted(o: Item): Item {
    o.(attempted := true, status := Unknown)
  }

  function MarkedAccepted(o: Item, receipt: Receipt): Item {
    o.(status := Accepted,
       message := receipt.message,
       thread := if receipt.thread != "" then receipt.thread else o.thread,
       recipientStatus := o.recipientStatus + AllSetTo(o.recipients, Accepted)
         + (if o.kind == Discussion && o.content.stage != "" then map["stage:" + o.content.stage := Accepted] else map[])
         + (if o.kind == Attach && receipt.participant != "" && receipt.message != "" then map[receipt.participant := Accepted] else map[]))
  }

  predicate AllReplied(statuses: map<string, Status>) {
    forall r :: r in statuses ==> statuses[r] == Replied
  }

  // Where a reply is read; a stage's discussion answers discussion items only.
  datatype Channel = InMesh | InDiscussion

  // A message of `sender` that answers AFM message `inReplyTo` of run `run`.
  predicate Concerns(o: Item, from: Channel, run: string, sender: string, inReplyTo: string) {
    && o.run == run && o.message != "" && o.message == inReplyTo && sender in o.recipientStatus
    && (if from == InMesh then Landed(o) else o.kind == Discussion)
  }

  function MarkedReplied(o: Item, from: Channel, run: string, sender: string, inReplyTo: string): Item {
    if !Concerns(o, from, run, sender, inReplyTo) then o
    else
      var statuses := o.recipientStatus[sender := Replied];
      o.(recipientStatus := statuses, status := if AllReplied(statuses) then Replied else o.status)
  }

  function WithRunFailed(items: Items, run: string): (r: Items)
    ensures r.Keys == items.Keys
  {
    map id | id in items :: if items[id].run == run && Pending(items[id]) then MarkedFailed(items[id]) else items[id]
  }

  function WithReply(items: Items, from: Channel, run: string, sender: string, inReplyTo: string): (r: Items)
    ensures r.Keys == items.Keys
  {
    map id | id in items :: MarkedReplied(items[id], from, run, sender, inReplyTo)
  }

  // ---------------------------------------------------------------------
  // The bot, its store and the receiver, step by step
  // ---------------------------------------------------------------------

  // How far the saving of an update came: not to the rename; renamed, but the directory was not
  // synced, so that the update both shows and is reported as an error; or all the way.
  datatype Fate = NotRenamed | Unsynced | Synced

  datatype Reply = Taken(receipt: Receipt) | Rejected | Lost

  // Where the one delivering goroutine is, with the copy of the item it loaded.
  datatype Pc =
    | Idle
    | Loaded(id: string, out: Item)
    | Sending(id: string, out: Item)
    | Answered(id: string, out: Item, reply: Reply)

  datatype Attempt = Attempt(id: string, request: Request)

  datatype Message = Message(request: Request, receipt: Receipt)

  // `maybe` holds every content the file may have after a power loss. `born`, `attempts`,
  // `unsynced` and `dropped` record history: the items as they were queued, what was sent, the
  // items marked as attempted since a directory sync last succeeded, and whether a power loss
  // ever took back a visible update.
  datatype World = World(
    memory: Items,
    file: Items,
    maybe: set<Items>,
    pc: Pc,
    log: seq<Message>,
    born: map<string, Item>,
    attempts: seq<Attempt>,
    unsynced: set<string>,
    dropped: bool)

  function Start(): World {
    World(map[], map[], {map[]}, Idle, [], map[], [], {}, false)
  }

  predicate Marked(items: Items, id: string) {
    id in items && items[id].attempted
  }

  function NewlyMarked(was: Items, next: Items): set<string> {
    set id | id in next && next[id].attempted && !Marked(was, id)
  }

  function Updated(w: World, next: Items, fate: Fate): World {
    match fate
    case NotRenamed => w
    case Unsynced =>
      w.(memory := next, file := next, maybe := w.maybe + {next}, unsynced := w.unsynced + NewlyMarked(w.memory, next))
    case Synced => w.(memory := next, file := next, maybe := {next}, unsynced := {})
  }

  // setOutbound: a missing item is an error and changes nothing.
  function Set(w: World, id: string, o: Item, fate: Fate): World {
    if id in w.memory then Updated(w, w.memory[id := o], fate) else w
  }

  // The receiver keeps one message per request ID and answers a replay with the first receipt.
  function Stored(log: seq<Message>, id: string): Option<Receipt> {
    if log == [] then None
    else if log[|log| - 1].request.requestID == id then Some(log[|log| - 1].receipt)
    else Stored(log[..|log| - 1], id)
  }

  function Committed(log: seq<Message>, request: Request, receipt: Receipt): seq<Message> {
    if Stored(log, request.requestID).Some? then log else log + [Message(request, receipt)]
  }

  function ReceiptFor(log: seq<Message>, request: Request, receipt: Receipt): Receipt {
    if Stored(log, request.requestID).Some? then Stored(log, request.requestID).value else receipt
  }

  // What becomes of one request: it may not arrive, be refused for good, or be taken; and the
  // answer may not come back.
  datatype Handling = Handling(arrives: bool, refused: bool, heard: bool, receipt: Receipt)

  datatype Event =
    | Enqueue(id: string, run: string, kind: Kind, content: Content, thread: string, recipients: seq<string>, fate: Fate)
    | Load(id: string)
    | GiveUp
    | FailStale(fate: Fate)
    | FailIneligible(fate: Fate)
    | Proceed(fate: Fate)
    | FailKind(fate: Fate)
    | Send(handling: Handling)
    | Record(fate: Fate)
    | ReadReply(from: Channel, run: string, sender: string, inReplyTo: string, fate: Fate)
    | FailRun(run: string, fate: Fate)
    | OtherUpdate(fate: Fate)
    | Restart
    | PowerLoss(back: Items)

  function Sent(w: World, request: Request, h: Handling): World
    requires w.pc.Sending?
  {
    var v := w.(attempts := w.attempts + [Attempt(w.pc.id, request)]);
    if !h.arrives then v.(pc := Answered(w.pc.id, w.pc.out, Lost))
    else if h.refused then v.(pc := Answered(w.pc.id, w.pc.out, if h.heard then Rejected else Lost))
    else v.(log := Committed(w.log, request, h.receipt),
            pc := Answered(w.pc.id, w.pc.out, if h.heard then Taken(ReceiptFor(w.log, request, h.receipt)) else Lost))
  }

  function Recorded(w: World, o: Item, fate: Fate): World
    requires w.pc.Answered?
  {
    match w.pc.reply
    case Taken(receipt) => Set(w, w.pc.id, MarkedAccepted(o, receipt), fate).(pc := Idle)
    case Rejected => Set(w, w.pc.id, MarkedFailed(o), fate).(pc := Idle)
    case Lost => w.(pc := Idle)
  }

  predicate IsDelivery(e: Event) {
    e.Load? || e.GiveUp? || e.FailStale? || e.FailIneligible? || e.Proceed? || e.FailKind? || e.Send? || e.Record?
  }

  // A step of the delivery under way; one that is not possible leaves the world as it is.
  function DeliveryStep(w: World, e: Event): World
    requires IsDelivery(e)
  {
    match e
    case Load(id) =>
      if w.pc == Idle && id in w.memory && Pending(w.memory[id]) then w.(pc := Loaded(id, w.memory[id])) else w
    case GiveUp => if w.pc.Loaded? then w.(pc := Idle) else w
    case FailStale(fate) =>
      if w.pc.Loaded? && w.pc.id in w.memory
      then Set(w, w.pc.id, MarkedFailed(w.memory[w.pc.id]), fate).(pc := Idle)
      else w
    case FailIneligible(fate) =>
      if w.pc.Loaded? && !w.pc.out.attempted && w.pc.id in w.memory
      then Set(w, w.pc.id, MarkedFailed(w.memory[w.pc.id]), fate).(pc := Idle)
      else w
    case Proceed(fate) =>
      if !w.pc.Loaded? || w.pc.id !in w.memory then w
      else if w.pc.out.attempted then w.(pc := Sending(w.pc.id, w.pc.out))
      else
        var v := Set(w, w.pc.id, MarkedAttempted(w.memory[w.pc.id]), fate);
        v.(pc := if fate == Synced then Sending(w.pc.id, w.pc.out) else Idle)
    case FailKind(fate) =>
      if w.pc.Sending? && RequestOf(w.pc.out).None? && w.pc.id in w.memory
      then Set(w, w.pc.id, MarkedFailed(w.memory[w.pc.id]), fate).(pc := Idle)
      else w
    case Send(h) =>
      if w.pc.Sending? && RequestOf(w.pc.out).Some? then Sent(w, RequestOf(w.pc.out).value, h) else w
    case Record(fate) =>
      if w.pc.Answered? && w.pc.id in w.memory then Recorded(w, w.memory[w.pc.id], fate) else w
  }

  // A step of anything else.
  function SharedStep(w: World, e: Event): World
    requires !IsDelivery(e)
  {
    match e
    case Enqueue(id, run, kind, content, thread, recipients, fate) =>
      if w.pc == Idle && id !in w.born then
        var o := NewItem(id, run, kind, content, thread, recipients);
        Updated(w.(born := w.born[id := o]), w.memory[id := o], fate)
      else w
    case ReadReply(from, run, sender, inReplyTo, fate) =>
      if w.pc == Idle then Updated(w, WithReply(w.memory, from, run, sender, inReplyTo), fate) else w
    case FailRun(run, fate) => Updated(w, WithRunFailed(w.memory, run), fate)
    case OtherUpdate(fate) => Updated(w, w.memory, fate)
    case Restart => w.(memory := w.file, pc := Idle)
    case PowerLoss(back) =>
      if back in w.maybe
      then w.(memory := back, file := back, maybe := {back}, pc := Idle, unsynced := {}, dropped := w.dropped || back != w.memory)
      else w
  }

  function Next(w: World, e: Event): World {
    if IsDelivery(e) then DeliveryStep(w, e) else SharedStep(w, e)
  }

  function Steps(w: World, es: seq<Event>): World {
    if es == [] then w else Next(Steps(w, es[..|es| - 1]), es[|es| - 1])
  }

  function Run(es: seq<Event>): World {
    Steps(Start(), es)
  }

  // ---------------------------------------------------------------------
  // What every run keeps
  // ---------------------------------------------------------------------

  // What an item keeps of the one that was queued.
  predicate SameOrigin(o: Item, b: Item) {
    && o.run == b.run && o.kind == b.kind && o.requestID == b.requestID
    && o.content == b.content && o.recipients == b.recipients
    && (!Landed(o) ==> o.thread == b.thread)
  }

  // The receiver took `request` and answered with `receipt`.
  predicate InLog(log: seq<Message>, request: Option<Request>, receipt: Receipt) {
    exists i :: 0 <= i < |log| && Some(log[i].request) == request && log[i].receipt == receipt
  }

  // What an item shows of its receipt: the message ID, and the thread if the receipt names one.
  predicate Shows(o: Item, b: Item, receipt: Receipt) {
    o.message == receipt.message && o.thread == if receipt.thread != "" then receipt.thread else b.thread
  }

  predicate Took(log: seq<Message>, o: Item, b: Item) {
    exists i :: 0 <= i < |log| && Some(log[i].request) == RequestOf(b) && Shows(o, b, log[i].receipt)
  }

  // The statuses fit together: see the lemmas about them below.
  predicate StatusesOk(o: Item) {
    && (o.status == Queued ==> !o.attempted)
    && (o.status == Unknown || Landed(o) ==> o.attempted)
    && (o.message != "" ==> Landed(o))
    && (!Landed(o) ==> forall r :: r in o.recipientStatus ==> r in o.recipients)
    && (Landed(o) ==> (o.status == Replied <==> o.recipientStatus != map[] && AllReplied(o.recipientStatus)))
    && (o.status == Replied ==> o.message != "")
    && (Landed(o) ==> forall r :: r in o.recipientStatus ==> o.recipientStatus[r] == Accepted || o.recipientStatus[r] == Replied)
    && (Landed(o) ==> forall r :: r in o.recipients ==> r in o.recipientStatus)
    && (o.status == Failed ==> forall r :: r in o.recipients ==> r in o.recipientStatus && o.recipientStatus[r] == Failed)
  }

  predicate ItemOk(o: Item, b: Item, log: seq<Message>) {
    SameOrigin(o, b) && StatusesOk(o) && (Landed(o) ==> Took(log, o, b))
  }

  predicate ItemsOk(items: Items, born: map<string, Item>, log: seq<Message>) {
    forall id :: id in items ==> id in born && ItemOk(items[id], born[id], log)
  }

  predicate BornOk(born: map<string, Item>) {
    forall id :: id in born ==> born[id].requestID == id
  }

  predicate StoreOk(w: World) {
    && w.memory == w.file && w.file in w.maybe
    && (forall s :: s in w.maybe ==> ItemsOk(s, w.born, w.log))
    && BornOk(w.born)
  }

  predicate PeerOk(w: World) {
    && (forall a :: a in w.attempts ==> a.id in w.born && Some(a.request) == RequestOf(w.born[a.id]))
    && LogOk(w.log, w.born)
    && (!w.dropped ==> forall a :: a in w.attempts ==> Marked(w.memory, a.id))
  }

  predicate PcOk(w: World) {
    w.pc != Idle ==>
      && w.pc.id in w.memory && w.pc.id in w.born
      && !Landed(w.memory[w.pc.id])
      && !Landed(w.pc.out) && SameOrigin(w.pc.out, w.born[w.pc.id])
      && (w.pc.Loaded? ==> w.pc.out.attempted == w.memory[w.pc.id].attempted)
      && (!w.pc.Loaded? ==> w.memory[w.pc.id].attempted)
      && (w.pc.Answered? && w.pc.reply.Taken? ==> InLog(w.log, RequestOf(w.born[w.pc.id]), w.pc.reply.receipt))
  }

  ghost predicate AlwaysMarked(w: World, id: string) {
    forall s :: s in w.maybe ==> Marked(s, id)
  }

  ghost predicate MarksOk(w: World) {
    forall id :: Marked(w.memory, id) ==> (id in w.unsynced <==> !AlwaysMarked(w, id))
  }

  ghost predicate Inv(w: World) {
    StoreOk(w) && PeerOk(w) && PcOk(w) && MarksOk(w)
  }

  // ---------------------------------------------------------------------
  // One item
  // ---------------------------------------------------------------------

  lemma RequestOfOrigin(o: Item, b: Item)
    requires SameOrigin(o, b) && !Landed(o)
    ensures RequestOf(o) == RequestOf(b)
  {
  }

  lemma AttemptedOk(o: Item, b: Item, log: seq<Message>)
    requires ItemOk(o, b, log) && !Landed(o)
    ensures ItemOk(MarkedAttempted(o), b, log)
  {
  }

  lemma FailedOk(o: Item, b: Item, log: seq<Message>)
    requires ItemOk(o, b, log) && !Landed(o)
    ensures ItemOk(MarkedFailed(o), b, log)
  {
  }

  lemma AcceptedStatuses(o: Item, receipt: Receipt)
    requires StatusesOk(o) && !Landed(o) && o.attempted
    ensures StatusesOk(MarkedAccepted(o, receipt))
  {
    var n := MarkedAccepted(o, receipt);
    assert forall r :: r in n.recipientStatus ==> n.recipientStatus[r] == Accepted;
    if n.recipientStatus != map[] {
      var r :| r in n.recipientStatus;
      assert n.recipientStatus[r] != Replied;
    }
  }

  lemma AcceptedTook(o: Item, b: Item, log: seq<Message>, receipt: Receipt)
    requires SameOrigin(o, b) && !Landed(o) && InLog(log, RequestOf(b), receipt)
    ensures SameOrigin(MarkedAccepted(o, receipt), b) && Took(log, MarkedAccepted(o, receipt), b)
  {
    var i :| 0 <= i < |log| && Some(log[i].request) == RequestOf(b) && log[i].receipt == receipt;
    assert Shows(MarkedAccepted(o, receipt), b, log[i].receipt);
  }

  lemma AcceptedOk(o: Item, b: Item, log: seq<Message>, receipt: Receipt)
    requires ItemOk(o, b, log) && !Landed(o) && o.attempted
    requires InLog(log, RequestOf(b), receipt)
    ensures ItemOk(MarkedAccepted(o, receipt), b, log)
  {
    AcceptedStatuses(o, receipt);
    AcceptedTook(o, b, log, receipt);
  }

  lemma RepliedOk(o: Item, b: Item, log: seq<Message>, from: Channel, run: string, sender: string, inReplyTo: string)
    requires ItemOk(o, b, log)
    ensures ItemOk(MarkedReplied(o, from, run, sender, inReplyTo), b, log)
    ensures MarkedReplied(o, from, run, sender, inReplyTo).attempted == o.attempted
    ensures Landed(MarkedReplied(o, from, run, sender, inReplyTo)) == Landed(o)
  {
    if Concerns(o, from, run, sender, inReplyTo) {
      var statuses := o.recipientStatus[sender := Replied];
      assert sender in statuses && statuses != map[];
      if o.status == Replied {
        assert AllReplied(statuses);
      }
    }
  }

  lemma LogGrows(items: Items, born: map<string, Item>, log: seq<Message>, m: Message)
    requires ItemsOk(items, born, log)
    ensures ItemsOk(items, born, log + [m])
  {
    forall id | id in items && Landed(items[id]) ensures Took(log + [m], items[id], born[id]) {
      var i :| 0 <= i < |log| && Some(log[i].request) == RequestOf(born[id]) && Shows(items[id], born[id], log[i].receipt);
      assert (log + [m])[i] == log[i];
    }
  }

  lemma {:induction false} StoredInLog(log: seq<Message>, id: string)
    ensures Stored(log, id).None? ==> forall i :: 0 <= i < |log| ==> log[i].request.requestID != id
    ensures Stored(log, id).Some? ==>
      exists i :: 0 <= i < |log| && log[i].request.requestID == id && log[i].receipt == Stored(log, id).value
  {
    if log != [] {
      StoredInLog(log[..|log| - 1], id);
      if log[|log| - 1].request.requestID != id && Stored(log, id).Some? {
        var i :| 0 <= i < |log| - 1 && log[i].request.requestID == id && log[i].receipt == Stored(log, id).value;
      }
    }
  }

  // ---------------------------------------------------------------------
  // One update
  // ---------------------------------------------------------------------

  // An update that forgets no item and no mark.
  predicate KeepsMarks(items: Items, next: Items) {
    forall id :: id in items ==> id in next && (items[id].attempted ==> next[id].attempted)
  }

  lemma UpdateKeeps(w: World, next: Items, fate: Fate)
    requires StoreOk(w) && PeerOk(w) && MarksOk(w)
    requires ItemsOk(next, w.born, w.log) && KeepsMarks(w.memory, next)
    ensures StoreOk(Updated(w, next, fate)) && PeerOk(Updated(w, next, fate)) && MarksOk(Updated(w, next, fate))
  {
    var v := Updated(w, next, fate);
    forall id | Marked(v.memory, id) ensures id in v.unsynced <==> !AlwaysMarked(v, id) {
      if fate == Unsynced && !Marked(w.memory, id) {
        assert w.memory in v.maybe;
      } else if fate != Synced {
        if AlwaysMarked(w, id) {
          assert AlwaysMarked(v, id);
        }
      }
    }
  }

  lemma SetKeeps(w: World, id: string, o: Item, fate: Fate)
    requires Inv(w) && id in w.memory
    requires id in w.born && ItemOk(o, w.born[id], w.log)
    requires w.memory[id].attempted ==> o.attempted
    ensures Inv(Set(w, id, o, fate).(pc := Idle))
  {
    assert ItemsOk(w.memory, w.born, w.log);
    UpdateKeeps(w, w.memory[id := o], fate);
    var v, u := Set(w, id, o, fate), Set(w, id, o, fate).(pc := Idle);
    SameButPc(v, u);
  }

  lemma SameButPc(v: World, u: World)
    requires u == v.(pc := u.pc)
    requires StoreOk(v) && PeerOk(v) && MarksOk(v)
    ensures StoreOk(u) && PeerOk(u) && MarksOk(u)
  {
    forall id | Marked(u.memory, id) ensures id in u.unsynced <==> !AlwaysMarked(u, id) {
      assert Marked(v.memory, id);
      assert AlwaysMarked(u, id) <==> AlwaysMarked(v, id);
    }
  }

  lemma RunFailedOk(items: Items, born: map<string, Item>, log: seq<Message>, run: string)
    requires ItemsOk(items, born, log)
    ensures ItemsOk(WithRunFailed(items, run), born, log) && KeepsMarks(items, WithRunFailed(items, run))
  {
    var next := WithRunFailed(items, run);
    forall id | id in next ensures id in born && ItemOk(next[id], born[id], log) {
      if Pending(items[id]) {
        FailedOk(items[id], born[id], log);
      }
    }
  }

  lemma FailRunKeeps(w: World, run: string, fate: Fate)
    requires Inv(w)
    ensures Inv(Updated(w, WithRunFailed(w.memory, run), fate))
  {
    assert ItemsOk(w.memory, w.born, w.log);
    RunFailedOk(w.memory, w.born, w.log, run);
    UpdateKeeps(w, WithRunFailed(w.memory, run), fate);
  }

  lemma ReplyKeeps(w: World, from: Channel, run: string, sender: string, inReplyTo: string, fate: Fate)
    requires Inv(w) && w.pc == Idle
    ensures Inv(Updated(w, WithReply(w.memory, from, run, sender, inReplyTo), fate))
  {
    var next := WithReply(w.memory, from, run, sender, inReplyTo);
    assert ItemsOk(w.memory, w.born, w.log);
    forall id | id in next ensures id in w.born && ItemOk(next[id], w.born[id], w.log) && next[id].attempted == w.memory[id].attempted {
      RepliedOk(w.memory[id], w.born[id], w.log, from, run, sender, inReplyTo);
    }
    UpdateKeeps(w, next, fate);
  }

  lemma BornKeeps(w: World, id: string, o: Item)
    requires StoreOk(w) && PeerOk(w) && MarksOk(w) && id !in w.born && o.requestID == id
    ensures var u := w.(born := w.born[id := o]); StoreOk(u) && PeerOk(u) && MarksOk(u)
  {
    var u := w.(born := w.born[id := o]);
    assert MarksOk(u) by {
      forall t | Marked(u.memory, t) ensures t in u.unsynced <==> !AlwaysMarked(u, t) {
        assert AlwaysMarked(u, t) <==> AlwaysMarked(w, t);
      }
    }
    forall s | s in u.maybe ensures ItemsOk(s, u.born, u.log) {
      assert ItemsOk(s, w.born, w.log);
    }
  }

  lemma EnqueueKeeps(w: World, e: Event)
    requires Inv(w) && e.Enqueue? && w.pc == Idle && e.id !in w.born
    ensures Inv(Next(w, e))
  {
    var o := NewItem(e.id, e.run, e.kind, e.content, e.thread, e.recipients);
    var u := w.(born := w.born[e.id := o]);
    BornKeeps(w, e.id, o);
    assert ItemsOk(u.memory, u.born, u.log);
    UpdateKeeps(u, u.memory[e.id := o], e.fate);
  }

  lemma SendKeeps(w: World, h: Handling)
    requires Inv(w) && w.pc.Sending? && RequestOf(w.pc.out).Some?
    ensures Inv(Next(w, Send(h)))
  {
    SendKeepsStore(w, h);
    SendKeepsPeer(w, h);
    var v := Next(w, Send(h));
    forall id | Marked(v.memory, id) ensures id in v.unsynced <==> !AlwaysMarked(v, id) {
      assert AlwaysMarked(v, id) <==> AlwaysMarked(w, id);
    }
    if v.pc.reply.Taken? {
      RequestOfOrigin(w.pc.out, w.born[w.pc.id]);
      ReceiptInLog(w, RequestOf(w.pc.out).value, h);
    }
  }

  lemma SendKeepsStore(w: World, h: Handling)
    requires Inv(w) && w.pc.Sending? && RequestOf(w.pc.out).Some?
    ensures StoreOk(Next(w, Send(h)))
  {
    var m := Message(RequestOf(w.pc.out).value, h.receipt);
    var v := Next(w, Send(h));
    if v.log == w.log + [m] {
      forall s | s in w.maybe ensures ItemsOk(s, v.born, v.log) {
        LogGrows(s, w.born, w.log, m);
      }
    }
  }

  lemma SendKeepsPeer(w: World, h: Handling)
    requires Inv(w) && w.pc.Sending? && RequestOf(w.pc.out).Some?
    ensures PeerOk(Next(w, Send(h)))
  {
    RequestOfOrigin(w.pc.out, w.born[w.pc.id]);
    var request := RequestOf(w.pc.out).value;
    CommitKeepsLog(w.log, w.born, request, h.receipt);
    assert Next(w, Send(h)) == Sent(w, request, h);
  }

  predicate LogOk(log: seq<Message>, born: map<string, Item>) {
    && (forall i :: 0 <= i < |log| ==>
          log[i].request.requestID in born && Some(log[i].request) == RequestOf(born[log[i].request.requestID]))
    && (forall i, j :: 0 <= i < j < |log| ==> log[i].request.requestID != log[j].request.requestID)
  }

  lemma CommitKeepsLog(log: seq<Message>, born: map<string, Item>, request: Request, receipt: Receipt)
    requires LogOk(log, born) && request.requestID in born && Some(request) == RequestOf(born[request.requestID])
    ensures LogOk(Committed(log, request, receipt), born)
  {
    StoredInLog(log, request.requestID);
  }

  lemma ReceiptInLog(w: World, request: Request, h: Handling)
    requires PeerOk(w) && request.requestID in w.born && RequestOf(w.born[request.requestID]) == Some(request)
    ensures InLog(Committed(w.log, request, h.receipt), Some(request), ReceiptFor(w.log, request, h.receipt))
  {
    StoredInLog(w.log, request.requestID);
    var log := Committed(w.log, request, h.receipt);
    if Stored(w.log, request.requestID).None? {
      assert log[|log| - 1] == Message(request, h.receipt);
    }
  }

  lemma ProceedKeeps(w: World, fate: Fate)
    requires Inv(w) && w.pc.Loaded? && !w.pc.out.attempted
    ensures Inv(Next(w, Proceed(fate)))
  {
    var id := w.pc.id;
    assert ItemsOk(w.memory, w.born, w.log);
    AttemptedOk(w.memory[id], w.born[id], w.log);
    SetKeeps(w, id, MarkedAttempted(w.memory[id]), fate);
    SameButPc(Set(w, id, MarkedAttempted(w.memory[id]), fate).(pc := Idle), Next(w, Proceed(fate)));
  }

  lemma AcceptKeeps(w: World, fate: Fate)
    requires Inv(w) && w.pc.Answered? && w.pc.reply.Taken?
    ensures Inv(Set(w, w.pc.id, MarkedAccepted(w.memory[w.pc.id], w.pc.reply.receipt), fate).(pc := Idle))
  {
    var id := w.pc.id;
    assert ItemsOk(w.memory, w.born, w.log);
    AcceptedOk(w.memory[id], w.born[id], w.log, w.pc.reply.receipt);
    SetKeeps(w, id, MarkedAccepted(w.memory[id], w.pc.reply.receipt), fate);
  }

  lemma RecordKeeps(w: World, fate: Fate)
    requires Inv(w) && w.pc.Answered?
    ensures Inv(Recorded(w, w.memory[w.pc.id], fate))
  {
    if w.pc.reply.Taken? {
      AcceptKeeps(w, fate);
    } else if w.pc.reply.Rejected? {
      FailKeeps(w, fate);
    } else {
      SameButPc(w, w.(pc := Idle));
    }
  }

  lemma FailKeeps(w: World, fate: Fate)
    requires Inv(w) && w.pc != Idle
    ensures Inv(Set(w, w.pc.id, MarkedFailed(w.memory[w.pc.id]), fate).(pc := Idle))
  {
    var id := w.pc.id;
    assert ItemsOk(w.memory, w.born, w.log);
    FailedOk(w.memory[id], w.born[id], w.log);
    SetKeeps(w, id, MarkedFailed(w.memory[id]), fate);
  }

  lemma PowerLossKeeps(w: World, back: Items)
    requires Inv(w) && back in w.maybe
    ensures Inv(Next(w, PowerLoss(back)))
  {
  }

  lemma DeliveryKeeps(w: World, e: Event)
    requires Inv(w) && IsDelivery(e)
    ensures Inv(DeliveryStep(w, e))
  {
    match e
    case Load(id) =>
      if w.pc == Idle && id in w.memory && Pending(w.memory[id]) {
        assert ItemsOk(w.memory, w.born, w.log);
        SameButPc(w, DeliveryStep(w, e));
      }
    case GiveUp => if w.pc.Loaded? { SameButPc(w, DeliveryStep(w, e)); }
    case FailStale(fate) => if w.pc.Loaded? { FailKeeps(w, fate); }
    case FailIneligible(fate) => if w.pc.Loaded? { FailKeeps(w, fate); }
    case Proceed(fate) =>
      if w.pc.Loaded? {
        if w.pc.out.attempted { SameButPc(w, DeliveryStep(w, e)); } else { ProceedKeeps(w, fate); }
      }
    case FailKind(fate) => if w.pc.Sending? { FailKeeps(w, fate); }
    case Send(h) => if w.pc.Sending? && RequestOf(w.pc.out).Some? { SendKeeps(w, h); }
    case Record(fate) => if w.pc.Answered? { RecordKeeps(w, fate); }
  }

  lemma OtherKeeps(w: World, fate: Fate)
    requires Inv(w)
    ensures Inv(Updated(w, w.memory, fate))
  {
    assert ItemsOk(w.memory, w.born, w.log);
    UpdateKeeps(w, w.memory, fate);
  }

  lemma SharedKeeps(w: World, e: Event)
    requires Inv(w) && !IsDelivery(e)
    ensures Inv(SharedStep(w, e))
  {
    match e
    case Enqueue(_, _, _, _, _, _, _) => if w.pc == Idle && e.id !in w.born { EnqueueKeeps(w, e); }
    case ReadReply(from, run, sender, inReplyTo, fate) => if w.pc == Idle { ReplyKeeps(w, from, run, sender, inReplyTo, fate); }
    case FailRun(run, fate) => FailRunKeeps(w, run, fate);
    case OtherUpdate(fate) => OtherKeeps(w, fate);
    case Restart => SameButPc(w, SharedStep(w, e));
    case PowerLoss(back) => if back in w.maybe { PowerLossKeeps(w, back); }
  }

  lemma StepKeeps(w: World, e: Event)
    requires Inv(w)
    ensures Inv(Next(w, e))
  {
    if IsDelivery(e) {
      DeliveryKeeps(w, e);
    } else {
      SharedKeeps(w, e);
    }
  }

  lemma {:induction false} RunKeeps(es: seq<Event>)
    ensures Inv(Run(es))
  {
    if es != [] {
      RunKeeps(es[..|es| - 1]);
      StepKeeps(Run(es[..|es| - 1]), es[|es| - 1]);
    }
  }

  // ---------------------------------------------------------------------
  // Exactly once
  // ---------------------------------------------------------------------

  // However often an item is attempted, across restarts and power losses, every attempt is the
  // same request: that of the item as it was queued, under the item's own ID.
  lemma EveryAttemptIsTheSame(es: seq<Event>, i: nat, j: nat)
    requires i < |Run(es).attempts| && j < |Run(es).attempts|
    requires Run(es).attempts[i].id == Run(es).attempts[j].id
    ensures Run(es).attempts[i].request == Run(es).attempts[j].request
    ensures Run(es).attempts[i].request.requestID == Run(es).attempts[i].id
  {
    RunKeeps(es);
    var w := Run(es);
    assert w.attempts[i] in w.attempts && w.attempts[j] in w.attempts;
  }

  // The receiver holds at most one message for an item, and it is the one that was queued.
  lemma AtMostOneMessage(es: seq<Event>, i: nat)
    requires i < |Run(es).log|
    ensures var w := Run(es); var id := w.log[i].request.requestID;
      && id in w.born && RequestOf(w.born[id]) == Some(w.log[i].request)
      && (forall j :: 0 <= j < |w.log| && w.log[j].request.requestID == id ==> j == i)
  {
    RunKeeps(es);
  }

  // The request says what the user's action asked for when the item was queued, field by field.
  predicate Asks(r: Request, e: Event)
    requires e.Enqueue?
  {
    && r.requestID == e.id
    && match e.kind
       case Mesh =>
         && r.MeshSend? && r.body == e.content.text && r.inReplyTo == e.content.inReplyTo
         && r.recipients == e.recipients && r.thread == e.thread && r.stage == e.content.stage
         && r.kind == (if e.content.messageKind != "" then e.content.messageKind else "message")
       case Discussion =>
         && r.DiscussionPost? && r.stage == e.content.stage && r.body == e.content.text
         && r.mentions == e.recipients && r.interrupt == e.content.interrupt
       case Attach =>
         && r.AttachAndSend? && r.profile == e.content.profile && r.scope == e.content.scope && r.mode == e.content.mode
         && r.instruction == e.content.instruction && r.originStage == e.content.stage
         && r.stage == (if e.content.scope == "run" then "" else e.content.stage)
         && (r.firstMessage == None <==> e.content.firstMessage == "")
         && (r.firstMessage.Some? ==> r.firstMessage.value == e.content.firstMessage)
       case OtherKind => false
  }

  // Event i of the run queued the item: before it there was none of that id.
  predicate Queues(es: seq<Event>, i: nat, id: string) {
    i < |es| && es[i].Enqueue? && es[i].id == id && id !in Run(es[..i]).born
  }

  predicate KeepsOrigin(o: Item, e: Event)
    requires e.Enqueue?
  {
    && o.requestID == e.id && o.run == e.run && o.kind == e.kind
    && o.content == e.content && o.recipients == e.recipients
  }

  predicate QueuedAs(es: seq<Event>, i: nat, b: Item) {
    Queues(es, i, b.requestID) && KeepsOrigin(b, es[i]) && b.thread == es[i].thread
  }

  lemma {:induction false} BornWasQueued(es: seq<Event>, id: string)
    requires id in Run(es).born
    ensures Run(es).born[id].requestID == id && exists i: nat :: QueuedAs(es, i, Run(es).born[id])
  {
    var n := |es| - 1;
    var front := es[..n];
    if id in Run(front).born {
      BornWasQueued(front, id);
      BornStays(Run(front), es[n], id);
      var i: nat :| QueuedAs(front, i, Run(front).born[id]);
      assert front[..i] == es[..i];
      assert QueuedAs(es, i, Run(es).born[id]);
    } else {
      NewlyBorn(Run(front), es[n], id);
      assert QueuedAs(es, n, Run(es).born[id]);
    }
  }

  lemma DeliveryBearsNone(w: World, e: Event)
    requires IsDelivery(e)
    ensures DeliveryStep(w, e).born == w.born
  {
  }

  lemma OthersBearNone(w: World, e: Event)
    requires !e.Enqueue?
    ensures Next(w, e).born == w.born
  {
    if IsDelivery(e) {
      DeliveryBearsNone(w, e);
    }
  }

  lemma NewlyBorn(w: World, e: Event, id: string)
    requires id !in w.born && id in Next(w, e).born
    ensures e.Enqueue? && e.id == id && KeepsOrigin(Next(w, e).born[id], e) && Next(w, e).born[id].thread == e.thread
  {
    if !e.Enqueue? {
      OthersBearNone(w, e);
    }
  }

  lemma BornStays(w: World, e: Event, id: string)
    requires id in w.born
    ensures id in Next(w, e).born && Next(w, e).born[id] == w.born[id]
  {
    if !e.Enqueue? {
      OthersBearNone(w, e);
    }
  }

  lemma RequestAsks(b: Item, e: Event)
    requires e.Enqueue? && KeepsOrigin(b, e) && b.thread == e.thread && RequestOf(b).Some?
    ensures Asks(RequestOf(b).value, e)
  {
  }

  // In every run, with any failures, restarts and power losses, what was sent for an item and what the receiver
  // keeps is what was asked for when the item was queued, to the last field.
  lemma RequestsAskWhatWasQueued(es: seq<Event>)
    ensures forall a :: a in Run(es).attempts ==> exists i: nat :: Queues(es, i, a.id) && Asks(a.request, es[i])
    ensures forall m :: m in Run(es).log ==> exists i: nat :: Queues(es, i, m.request.requestID) && Asks(m.request, es[i])
  {
    RunKeeps(es);
    var w := Run(es);
    forall a | a in w.attempts ensures exists i: nat :: Queues(es, i, a.id) && Asks(a.request, es[i]) {
      BornWasQueued(es, a.id);
      var i: nat :| QueuedAs(es, i, w.born[a.id]);
      RequestAsks(w.born[a.id], es[i]);
    }
    forall m | m in w.log ensures exists i: nat :: Queues(es, i, m.request.requestID) && Asks(m.request, es[i]) {
      var id := m.request.requestID;
      BornWasQueued(es, id);
      var i: nat :| QueuedAs(es, i, w.born[id]);
      RequestAsks(w.born[id], es[i]);
    }
  }

  // Whatever becomes of an item, it stays the one that was queued.
  lemma ItemsStayWhatWasQueued(es: seq<Event>, id: string)
    requires id in Run(es).memory
    ensures exists i: nat :: Queues(es, i, id) && KeepsOrigin(Run(es).memory[id], es[i])
  {
    RunKeeps(es);
    var w := Run(es);
    InMemory(w, id);
    BornWasQueued(es, id);
    var i: nat :| QueuedAs(es, i, w.born[id]);
    assert KeepsOrigin(w.memory[id], es[i]);
  }

  // What an accepted item shows of each recipient: those it was sent to, the stage of a discussion, and the
  // participant that was attached; nobody else's status changes.
  lemma AcceptanceExact(o: Item, receipt: Receipt, r: string)
    ensures var n := MarkedAccepted(o, receipt);
      var told := r in o.recipients || (o.kind == Discussion && o.content.stage != "" && r == "stage:" + o.content.stage)
        || (o.kind == Attach && receipt.participant != "" && receipt.message != "" && r == receipt.participant);
      && (r in n.recipientStatus <==> told || r in o.recipientStatus)
      && (told ==> n.recipientStatus[r] == Accepted)
      && (!told && r in o.recipientStatus ==> n.recipientStatus[r] == o.recipientStatus[r])
  {
  }

  // A changed run takes its unanswered items with it, every recipient of theirs included, and no others.
  lemma RunFailedExact(w: World, run: string, fate: Fate, id: string)
    requires id in w.memory && fate != NotRenamed
    ensures var o, n := w.memory[id], Next(w, FailRun(run, fate)).memory;
      && id in n
      && (if o.run == run && o.status in {Queued, Unknown}
          then n[id].status == Failed && forall r :: r in o.recipients ==> r in n[id].recipientStatus && n[id].recipientStatus[r] == Failed
          else n[id] == o)
  {
  }

  // An item reported as accepted or replied was taken by the receiver, under the message ID and in
  // the thread the item shows; and an item shows a message ID only then.
  lemma AcceptedIsTrue(es: seq<Event>, id: string)
    requires id in Run(es).memory
    ensures var w := Run(es); var o := w.memory[id];
      && id in w.born
      && (Landed(o) ==> Took(w.log, o, w.born[id]))
      && (o.message != "" ==> Landed(o))
  {
    RunKeeps(es);
    var w := Run(es);
    assert ItemsOk(w.memory, w.born, w.log);
  }

  // Replied means that there are recipients and all of them replied; accepted, that this is not so.
  // Either way every recipient of the item is accounted for, as it is when the item failed.
  lemma RepliedExact(es: seq<Event>, id: string)
    requires id in Run(es).memory
    ensures var o := Run(es).memory[id];
      && (Landed(o) ==> (o.status == Replied <==> o.recipientStatus != map[] && AllReplied(o.recipientStatus)))
      && (Landed(o) ==> forall r :: r in o.recipients ==> r in o.recipientStatus)
      && (o.status == Failed ==> forall r :: r in o.recipients ==> r in o.recipientStatus && o.recipientStatus[r] == Failed)
  {
    RunKeeps(es);
    var w := Run(es);
    assert ItemsOk(w.memory, w.born, w.log);
  }

  // ---------------------------------------------------------------------
  // Replies
  // ---------------------------------------------------------------------

  // The bot read a message of `sender` that answers `message`.
  predicate ReplyRead(es: seq<Event>, run: string, sender: string, message: string) {
    exists i :: 0 <= i < |es| && IsReply(es[i], run, sender, message)
  }

  predicate IsReply(e: Event, run: string, sender: string, message: string) {
    e.ReadReply? && e.run == run && e.sender == sender && e.inReplyTo == message
  }

  // Every recipient marked as replied has replied to the message the item shows.
  predicate FlagsRead(es: seq<Event>, o: Item) {
    forall r :: r in o.recipientStatus && o.recipientStatus[r] == Replied ==> Landed(o) && ReplyRead(es, o.run, r, o.message)
  }

  predicate AllRead(es: seq<Event>, items: Items) {
    forall id :: id in items ==> FlagsRead(es, items[id])
  }

  predicate ContentsRead(es: seq<Event>, w: World) {
    forall s :: s in w.maybe ==> AllRead(es, s)
  }

  lemma ReadGrows(es: seq<Event>, e: Event, run: string, sender: string, message: string)
    requires ReplyRead(es, run, sender, message) || IsReply(e, run, sender, message)
    ensures ReplyRead(es + [e], run, sender, message)
  {
    if ReplyRead(es, run, sender, message) {
      var i :| 0 <= i < |es| && IsReply(es[i], run, sender, message);
      assert (es + [e])[i] == es[i];
    } else {
      assert (es + [e])[|es|] == e;
    }
  }

  lemma FlagsGrow(es: seq<Event>, e: Event, o: Item)
    requires FlagsRead(es, o)
    ensures FlagsRead(es + [e], o)
  {
    forall r | r in o.recipientStatus && o.recipientStatus[r] == Replied ensures ReplyRead(es + [e], o.run, r, o.message) {
      ReadGrows(es, e, o.run, r, o.message);
    }
  }

  lemma ContentsGrow(es: seq<Event>, e: Event, w: World)
    requires ContentsRead(es, w)
    ensures ContentsRead(es + [e], w)
  {
    forall s, id | s in w.maybe && id in s ensures FlagsRead(es + [e], s[id]) {
      assert AllRead(es, s);
      FlagsGrow(es, e, s[id]);
    }
  }

  lemma MarksRead(es: seq<Event>, o: Item, receipt: Receipt)
    requires FlagsRead(es, o) && !Landed(o)
    ensures FlagsRead(es, MarkedFailed(o)) && FlagsRead(es, MarkedAttempted(o)) && FlagsRead(es, MarkedAccepted(o, receipt))
  {
  }

  lemma RepliedRead(es: seq<Event>, e: Event, o: Item)
    requires e.ReadReply? && FlagsRead(es + [e], o) && StatusesOk(o)
    ensures FlagsRead(es + [e], MarkedReplied(o, e.from, e.run, e.sender, e.inReplyTo))
  {
    if Concerns(o, e.from, e.run, e.sender, e.inReplyTo) {
      assert IsReply(e, o.run, e.sender, o.message);
      assert (es + [e])[|es|] == e;
    }
  }

  lemma UpdatedRead(es: seq<Event>, w: World, next: Items, fate: Fate)
    requires ContentsRead(es, w) && AllRead(es, next)
    ensures ContentsRead(es, Updated(w, next, fate))
  {
  }

  lemma SetRead(es: seq<Event>, w: World, id: string, o: Item, fate: Fate)
    requires ContentsRead(es, w) && w.memory in w.maybe && FlagsRead(es, o)
    ensures ContentsRead(es, Set(w, id, o, fate))
  {
    if id in w.memory {
      assert AllRead(es, w.memory);
      UpdatedRead(es, w, w.memory[id := o], fate);
    }
  }

  lemma SetMarksRead(es: seq<Event>, w: World, id: string, receipt: Receipt, fate: Fate)
    requires ContentsRead(es, w) && w.memory in w.maybe && id in w.memory && !Landed(w.memory[id])
    ensures ContentsRead(es, Set(w, id, MarkedFailed(w.memory[id]), fate))
    ensures ContentsRead(es, Set(w, id, MarkedAttempted(w.memory[id]), fate))
    ensures ContentsRead(es, Set(w, id, MarkedAccepted(w.memory[id], receipt), fate))
  {
    var o := w.memory[id];
    assert AllRead(es, w.memory);
    MarksRead(es, o, receipt);
    SetRead(es, w, id, MarkedFailed(o), fate);
    SetRead(es, w, id, MarkedAttempted(o), fate);
    SetRead(es, w, id, MarkedAccepted(o, receipt), fate);
  }

  lemma DeliveryReads(es: seq<Event>, w: World, e: Event)
    requires Inv(w) && ContentsRead(es, w) && IsDelivery(e)
    ensures ContentsRead(es, DeliveryStep(w, e))
  {
    if w.pc != Idle && !e.Send? && !e.GiveUp? && !e.Load? {
      var receipt := if w.pc.Answered? && w.pc.reply.Taken? then w.pc.reply.receipt else Receipt("", "", "");
      SetMarksRead(es, w, w.pc.id, receipt, e.fate);
    }
  }

  lemma SharedReads(es: seq<Event>, w: World, e: Event)
    requires Inv(w) && ContentsRead(es + [e], w) && !IsDelivery(e)
    ensures ContentsRead(es + [e], SharedStep(w, e))
  {
    assert AllRead(es + [e], w.memory);
    match e
    case Enqueue(_, _, _, _, _, _, fate) =>
      if w.pc == Idle && e.id !in w.born {
        var o := NewItem(e.id, e.run, e.kind, e.content, e.thread, e.recipients);
        assert FlagsRead(es + [e], o);
        UpdatedRead(es + [e], w.(born := w.born[e.id := o]), w.memory[e.id := o], fate);
      }
    case ReadReply(from, run, sender, inReplyTo, fate) =>
      assert ItemsOk(w.memory, w.born, w.log);
      forall id | id in w.memory { RepliedRead(es, e, w.memory[id]); }
      UpdatedRead(es + [e], w, WithReply(w.memory, from, run, sender, inReplyTo), fate);
    case FailRun(run, fate) =>
      forall id | id in w.memory && Pending(w.memory[id]) { MarksRead(es + [e], w.memory[id], Receipt("", "", "")); }
      UpdatedRead(es + [e], w, WithRunFailed(w.memory, run), fate);
    case OtherUpdate(fate) => UpdatedRead(es + [e], w, w.memory, fate);
    case Restart =>
    case PowerLoss(back) =>
  }

  lemma {:induction false} RunReads(es: seq<Event>)
    ensures ContentsRead(es, Run(es))
  {
    if es != [] {
      var front, e := es[..|es| - 1], es[|es| - 1];
      RunReads(front);
      RunKeeps(front);
      assert front + [e] == es;
      ContentsGrow(front, e, Run(front));
      if IsDelivery(e) {
        DeliveryReads(es, Run(front), e);
      } else {
        SharedReads(front, Run(front), e);
      }
    }
  }

  // Over whole runs, with restarts and power losses: a recipient is shown as having replied only if
  // a reply of that recipient to that very message was read, and an item is replied only if one
  // was read from each of its recipients.
  lemma RepliedWasRead(es: seq<Event>, id: string)
    requires id in Run(es).memory
    ensures var o := Run(es).memory[id];
      && (forall r :: r in o.recipientStatus && o.recipientStatus[r] == Replied ==> ReplyRead(es, o.run, r, o.message))
      && (o.status == Replied ==> o.message != "" && forall r :: r in o.recipients ==> ReplyRead(es, o.run, r, o.message))
  {
    RunKeeps(es);
    RunReads(es);
    var w := Run(es);
    assert AllRead(es, w.memory) && ItemsOk(w.memory, w.born, w.log);
    assert FlagsRead(es, w.memory[id]);
  }

  // And the other way: a reply that is read and saved is shown.
  lemma ReadIsShown(es: seq<Event>, e: Event, id: string)
    requires e.ReadReply? && e.fate != NotRenamed && Run(es).pc == Idle && id in Run(es).memory
    requires Concerns(Run(es).memory[id], e.from, e.run, e.sender, e.inReplyTo)
    ensures var o := Next(Run(es), e).memory[id]; e.sender in o.recipientStatus && o.recipientStatus[e.sender] == Replied
  {
  }

  // ---------------------------------------------------------------------
  // Write-ahead
  // ---------------------------------------------------------------------

  lemma OnlySendSends(w: World, e: Event)
    ensures Next(w, e).attempts == w.attempts
      || (e.Send? && w.pc.Sending? && RequestOf(w.pc.out).Some?
          && Next(w, e).attempts == w.attempts + [Attempt(w.pc.id, RequestOf(w.pc.out).value)])
  {
    if !e.Send? {
      OthersSendNothing(w, e);
    }
  }

  lemma OthersSendNothing(w: World, e: Event)
    requires !e.Send?
    ensures Next(w, e).attempts == w.attempts
  {
    if IsDelivery(e) {
      assert DeliveryStep(w, e).attempts == w.attempts;
    } else {
      assert SharedStep(w, e).attempts == w.attempts;
    }
  }

  // No request leaves before the visible file says that the item was attempted.
  lemma NoSendBeforeTheMark(es: seq<Event>, e: Event)
    requires Next(Run(es), e).attempts != Run(es).attempts
    ensures var w := Run(es);
      && w.pc.Sending? && Marked(w.file, w.pc.id) && RequestOf(w.pc.out).Some?
      && Next(w, e).attempts == w.attempts + [Attempt(w.pc.id, RequestOf(w.pc.out).value)]
  {
    RunKeeps(es);
    OnlySendSends(Run(es), e);
  }

  // The mark outlasts a power loss exactly when a directory sync has succeeded since it was set.
  lemma MarkOutlastsPowerLossExact(es: seq<Event>, id: string)
    requires Marked(Run(es).memory, id)
    ensures (forall back :: back in Run(es).maybe ==> Marked(Next(Run(es), PowerLoss(back)).memory, id)) <==> id !in Run(es).unsynced
  {
    RunKeeps(es);
    var w := Run(es);
    if id in w.unsynced {
      var s :| s in w.maybe && !Marked(s, id);
      assert Next(w, PowerLoss(s)).memory == s;
    } else {
      forall back | back in w.maybe ensures Marked(Next(w, PowerLoss(back)).memory, id) {
        assert AlwaysMarked(w, id);
        assert Next(w, PowerLoss(back)).memory == back;
      }
    }
  }

  // What the mark is for: while no power loss has taken back an update, an item that was ever sent
  // is never declared undeliverable by the checks made before a first attempt.
  lemma SentIsNeverIneligible(es: seq<Event>, fate: Fate)
    requires !Run(es).dropped
    requires Next(Run(es), FailIneligible(fate)) != Run(es)
    ensures Run(es).pc.Loaded? && forall a :: a in Run(es).attempts ==> a.id != Run(es).pc.id
  {
    RunKeeps(es);
  }

  lemma {:induction false} StepsAppend(w: World, es: seq<Event>, e: Event)
    ensures Steps(w, es + [e]) == Next(Steps(w, es), e)
  {
    assert (es + [e])[..|es|] == es;
  }

  // A queued item that was marked with an update whose directory sync failed.
  function MarkedUnsynced(id: string, o: Item): World {
    World(map[id := MarkedAttempted(o)], map[id := MarkedAttempted(o)],
          {map[id := o], map[id := MarkedAttempted(o)]}, Idle, [], map[id := o], [], {id}, false)
  }

  function Fresh(queue: Event): Item
    requires queue.Enqueue?
  {
    NewItem(queue.id, queue.run, queue.kind, queue.content, queue.thread, queue.recipients)
  }

  lemma ReachMarked(queue: Event)
    requires queue.Enqueue? && queue.fate == Synced
    ensures Run([queue, Load(queue.id), Proceed(Unsynced)]) == MarkedUnsynced(queue.id, Fresh(queue))
  {
    var id, o := queue.id, Fresh(queue);
    var w1 := Next(Start(), queue);
    assert w1 == World(map[id := o], map[id := o], {map[id := o]}, Idle, [], map[id := o], [], {}, false);
    var w2 := Next(w1, Load(id));
    assert w2 == w1.(pc := Loaded(id, o));
    var w3 := Next(w2, Proceed(Unsynced));
    assert w3.memory == map[id := MarkedAttempted(o)];
    assert w3.maybe == {map[id := o], map[id := MarkedAttempted(o)]};
    assert w3.unsynced == {id};
    StepsAppend(Start(), [], queue);
    StepsAppend(Start(), [queue], Load(id));
    StepsAppend(Start(), [queue, Load(id)], Proceed(Unsynced));
    assert [] + [queue] == [queue] && [queue] + [Load(id)] == [queue, Load(id)];
    assert [queue, Load(id)] + [Proceed(Unsynced)] == [queue, Load(id), Proceed(Unsynced)];
  }

  lemma SentAfterMark(id: string, o: Item, h: Handling, es: seq<Event>)
    requires Run(es) == MarkedUnsynced(id, o) && RequestOf(o).Some? && h.arrives && !h.refused
    ensures var w := Run(es + [Load(id)] + [Proceed(Synced)] + [Send(h)]);
      |w.log| == 1 && map[id := o] in w.maybe
  {
    var w0 := MarkedUnsynced(id, o);
    var w1 := Next(w0, Load(id));
    assert w1 == w0.(pc := Loaded(id, MarkedAttempted(o)));
    var w2 := Next(w1, Proceed(Synced));
    assert w2 == w0.(pc := Sending(id, MarkedAttempted(o)));
    assert RequestOf(MarkedAttempted(o)) == RequestOf(o);
    assert |Next(w2, Send(h)).log| == 1;
    StepsAppend(Start(), es, Load(id));
    StepsAppend(Start(), es + [Load(id)], Proceed(Synced));
    StepsAppend(Start(), es + [Load(id)] + [Proceed(Synced)], Send(h));
  }

  lemma LostThenFailed(id: string, o: Item, es: seq<Event>)
    requires map[id := o] in Run(es).maybe && Pending(o) && !o.attempted
    ensures var w := Run(es + [PowerLoss(map[id := o])] + [Load(id)] + [FailIneligible(Synced)]);
      w.log == Run(es).log && id in w.memory && w.memory[id] == MarkedFailed(o)
  {
    var w1 := Next(Run(es), PowerLoss(map[id := o]));
    assert w1.memory == map[id := o] && w1.pc == Idle && w1.log == Run(es).log;
    var w2 := Next(w1, Load(id));
    assert w2 == w1.(pc := Loaded(id, o));
    StepsAppend(Start(), es, PowerLoss(map[id := o]));
    StepsAppend(Start(), es + [PowerLoss(map[id := o])], Load(id));
    StepsAppend(Start(), es + [PowerLoss(map[id := o])] + [Load(id)], FailIneligible(Synced));
  }

  // With a power loss that takes back the mark it can happen, to any item that can be sent: the
  // receiver took the message, and the item is failed as if it had never been sent.
  lemma SentButFailed(queue: Event, h: Handling)
    requires queue.Enqueue? && queue.fate == Synced && queue.kind != OtherKind
    requires h.arrives && !h.refused
    ensures exists es ::
      && |Run(es).log| == 1
      && queue.id in Run(es).memory && Run(es).memory[queue.id] == MarkedFailed(Fresh(queue))
  {
    var id, o := queue.id, Fresh(queue);
    var marked := [queue, Load(id), Proceed(Unsynced)];
    ReachMarked(queue);
    SentAfterMark(id, o, h, marked);
    var sent := marked + [Load(id)] + [Proceed(Synced)] + [Send(h)];
    LostThenFailed(id, o, sent);
    var es := sent + [PowerLoss(map[id := o])] + [Load(id)] + [FailIneligible(Synced)];
    assert |Run(es).log| == 1;
  }

  // ---------------------------------------------------------------------
  // How a status moves
  // ---------------------------------------------------------------------

  predicate Moves(o: Item, n: Item) {
    && (o.status == Accepted ==> Landed(n))
    && (o.status == Replied ==> n.status == Replied)
    && (o.status == Failed ==> n.status == Failed)
  }

  lemma ReplyMoves(o: Item, from: Channel, run: string, sender: string, inReplyTo: string)
    requires StatusesOk(o)
    ensures Moves(o, MarkedReplied(o, from, run, sender, inReplyTo))
  {
  }

  // Only a reply, a failing run and a delivery of the item itself change it.
  lemma OthersLeave(w: World, e: Event, id: string)
    requires id in w.memory && w.memory == w.file && id in w.born
    requires !e.ReadReply? && !e.FailRun? && !e.PowerLoss?
    requires w.pc == Idle || w.pc.id != id || e.Send?
    ensures id in Next(w, e).memory && Next(w, e).memory[id] == w.memory[id]
  {
    if IsDelivery(e) {
      DeliveryLeaves(w, e, id);
    } else {
      QueueLeaves(w, e, id);
    }
  }

  lemma SetLeaves(w: World, key: string, o: Item, fate: Fate, id: string)
    requires id in w.memory && key != id
    ensures id in Set(w, key, o, fate).memory && Set(w, key, o, fate).memory[id] == w.memory[id]
  {
  }

  lemma DeliveryLeaves(w: World, e: Event, id: string)
    requires id in w.memory && IsDelivery(e) && (w.pc == Idle || w.pc.id != id || e.Send?)
    ensures id in DeliveryStep(w, e).memory && DeliveryStep(w, e).memory[id] == w.memory[id]
  {
    if e.Record? {
      RecordLeaves(w, e.fate, id);
    }
  }

  lemma RecordLeaves(w: World, fate: Fate, id: string)
    requires id in w.memory && (w.pc == Idle || w.pc.id != id)
    ensures id in DeliveryStep(w, Record(fate)).memory && DeliveryStep(w, Record(fate)).memory[id] == w.memory[id]
  {
    if w.pc.Answered? && w.pc.id in w.memory {
      RecordedLeaves(w, w.memory[w.pc.id], fate, id);
    }
  }

  lemma RecordedLeaves(w: World, o: Item, fate: Fate, id: string)
    requires id in w.memory && w.pc.Answered? && w.pc.id != id
    ensures id in Recorded(w, o, fate).memory && Recorded(w, o, fate).memory[id] == w.memory[id]
  {
    match w.pc.reply
    case Taken(receipt) => SetLeaves(w, w.pc.id, MarkedAccepted(o, receipt), fate, id);
    case Rejected => SetLeaves(w, w.pc.id, MarkedFailed(o), fate, id);
    case Lost =>
  }

  lemma QueueLeaves(w: World, e: Event, id: string)
    requires id in w.memory && w.memory == w.file && id in w.born
    requires e.Enqueue? || e.OtherUpdate? || e.Restart?
    ensures id in SharedStep(w, e).memory && SharedStep(w, e).memory[id] == w.memory[id]
  {
  }

  // Apart from a power loss that takes updates back, an accepted item stays accepted or becomes
  // replied, a replied one stays replied, and a failed one stays failed unless it is being delivered.
  lemma StatusMoves(es: seq<Event>, e: Event, id: string)
    requires id in Run(es).memory
    requires e.PowerLoss? ==> e.back == Run(es).memory
    ensures var w := Run(es); var v := Next(w, e);
      && id in v.memory
      && (w.memory[id].status == Accepted ==> Landed(v.memory[id]))
      && (w.memory[id].status == Replied ==> v.memory[id].status == Replied)
      && (w.memory[id].status == Failed && (w.pc == Idle || w.pc.id != id) ==> v.memory[id].status == Failed)
  {
    RunKeeps(es);
    var w := Run(es);
    MoveOf(w, e, id);
  }

  lemma NoneForgotten(w: World, e: Event, id: string)
    requires id in w.memory && w.memory == w.file
    requires !e.PowerLoss?
    ensures id in Next(w, e).memory
  {
    if IsDelivery(e) {
      DeliveryForgetsNone(w, e, id);
    } else {
      SharedForgetsNone(w, e, id);
    }
  }

  lemma DeliveryForgetsNone(w: World, e: Event, id: string)
    requires id in w.memory && IsDelivery(e)
    ensures id in DeliveryStep(w, e).memory
  {
    if e.Record? {
      RecordForgetsNone(w, e.fate, id);
    }
  }

  lemma RecordForgetsNone(w: World, fate: Fate, id: string)
    requires id in w.memory
    ensures id in DeliveryStep(w, Record(fate)).memory
  {
    if w.pc.Answered? && w.pc.id in w.memory {
      assert id in Recorded(w, w.memory[w.pc.id], fate).memory;
    }
  }

  lemma SharedForgetsNone(w: World, e: Event, id: string)
    requires id in w.memory && w.memory == w.file && !IsDelivery(e) && !e.PowerLoss?
    ensures id in SharedStep(w, e).memory
  {
  }

  lemma UpdateMoves(w: World, next: Items, fate: Fate, id: string)
    requires id in w.memory && id in next && Moves(w.memory[id], next[id])
    ensures id in Updated(w, next, fate).memory && Moves(w.memory[id], Updated(w, next, fate).memory[id])
  {
  }

  lemma InMemory(w: World, id: string)
    requires StoreOk(w) && id in w.memory
    ensures id in w.born && ItemOk(w.memory[id], w.born[id], w.log)
  {
    assert ItemsOk(w.memory, w.born, w.log);
  }

  lemma FailRunMoves(w: World, e: Event, id: string)
    requires id in w.memory && e.FailRun?
    ensures id in Next(w, e).memory && Moves(w.memory[id], Next(w, e).memory[id])
  {
    UpdateMoves(w, WithRunFailed(w.memory, e.run), e.fate, id);
  }

  lemma ReadReplyMoves(w: World, e: Event, id: string)
    requires id in w.memory && StatusesOk(w.memory[id]) && e.ReadReply?
    ensures id in Next(w, e).memory && Moves(w.memory[id], Next(w, e).memory[id])
  {
    ReplyMoves(w.memory[id], e.from, e.run, e.sender, e.inReplyTo);
    UpdateMoves(w, WithReply(w.memory, e.from, e.run, e.sender, e.inReplyTo), e.fate, id);
  }

  lemma SharedUpdateMoves(w: World, e: Event, id: string)
    requires Inv(w) && id in w.memory
    requires e.ReadReply? || e.FailRun?
    ensures id in Next(w, e).memory && Moves(w.memory[id], Next(w, e).memory[id])
  {
    InMemory(w, id);
    if e.FailRun? {
      FailRunMoves(w, e, id);
    } else {
      ReadReplyMoves(w, e, id);
    }
  }

  lemma MoveOf(w: World, e: Event, id: string)
    requires Inv(w) && id in w.memory
    requires e.PowerLoss? ==> e.back == w.memory
    ensures id in Next(w, e).memory
    ensures w.pc == Idle || w.pc.id != id || Landed(w.memory[id]) ==> Moves(w.memory[id], Next(w, e).memory[id])
  {
    if e.ReadReply? || e.FailRun? {
      SharedUpdateMoves(w, e, id);
    } else if e.PowerLoss? {
      assert Next(w, e).memory == w.memory;
    } else {
      NoneForgotten(w, e, id);
      if w.pc == Idle || w.pc.id != id {
        OthersLeave(w, e, id);
      }
    }
  }

  // While it is being delivered a failed item can come back: a registration fails it after it was
  // loaded, and the delivery goes on.
  lemma FailedMayComeBack(queue: Event)
    requires queue.Enqueue? && queue.fate == Synced
    ensures exists es ::
      && queue.id in Run(es).memory && Run(es).memory[queue.id].status == Failed
      && queue.id in Next(Run(es), Proceed(Synced)).memory
      && Next(Run(es), Proceed(Synced)).memory[queue.id].status == Unknown
  {
    var id, o := queue.id, Fresh(queue);
    var w1 := Next(Start(), queue);
    assert w1.memory == map[id := o] && w1.pc == Idle;
    var w2 := Next(w1, Load(id));
    assert w2 == w1.(pc := Loaded(id, o));
    var w3 := Next(w2, FailRun(queue.run, Synced));
    assert w3.memory[id] == MarkedFailed(o) && w3.pc == w2.pc;
    assert Next(w3, Proceed(Synced)).memory[id] == MarkedAttempted(MarkedFailed(o));
    StepsAppend(Start(), [], queue);
    StepsAppend(Start(), [queue], Load(id));
    StepsAppend(Start(), [queue] + [Load(id)], FailRun(queue.run, Synced));
    assert [] + [queue] == [queue];
    assert Run([queue] + [Load(id)] + [FailRun(queue.run, Synced)]) == w3;
  }
}
