// The outbox operations as the bot's service runs them over its store: one delivery, one
// registration of a changed run, one reply read from the mesh or a discussion.
module OutboxService {
  import opened Options
  import opened Outbox

  // What the registry and the run answer before an attempt: no binding that is still valid, a run
  // that is not the bound one any more, no connection, no status, or a status. `reachable` is
  // absent when the participants cannot be read.
  datatype Resolution =
    | Unbound
    | Changed
    | Unreachable
    | Silent
    | Resolved(terminal: bool, collaboration: bool, reachable: Option<set<string>>)

  // What happens around one delivery.
  datatype Circumstances = Circumstances(
    resolution: Resolution,
    registering: Fate,
    failing: Fate,
    marking: Fate,
    handling: Handling,
    recording: Fate)

  datatype Verdict = Ineligible | Unreadable | Eligible

  // The checks that stand before a first attempt only.
  function Check(o: Item, r: Resolution): Verdict
    requires r.Resolved?
  {
    if o.attempted then Eligible
    else if r.terminal then Ineligible
    else if (o.kind == Mesh || o.kind == Attach) && !r.collaboration then Ineligible
    else if o.kind == Mesh && o.recipients != [] then
      if r.reachable.None? then Unreadable
      else if exists p :: p in o.recipients && p !in r.reachable.value then Ineligible
      else Eligible
    else Eligible
  }

  // What resolving the run of `o` saves; a run that changed takes its unanswered items with it.
  function Registering(o: Item, c: Circumstances): seq<Event> {
    match c.resolution
    case Unbound => []
    case Changed => [FailRun(o.run, c.registering)]
    case Unreachable => [OtherUpdate(c.registering)]
    case Silent => []
    case Resolved(_, _, _) => [OtherUpdate(c.registering)]
  }

  // The steps that follow, for the loaded item `o`, when nothing comes between them.
  function Delivery(o: Item, c: Circumstances): seq<Event> {
    match c.resolution
    case Unbound => [FailStale(c.failing)]
    case Changed => [FailStale(c.failing)]
    case Unreachable => [GiveUp]
    case Silent => [GiveUp]
    case Resolved(_, _, _) =>
      match Check(o, c.resolution)
      case Ineligible => [FailIneligible(c.failing)]
      case Unreadable => [GiveUp]
      case Eligible =>
        if !o.attempted && c.marking != Synced then [Proceed(c.marking)]
        else if RequestOf(o).None? then [Proceed(c.marking), FailKind(c.recording)]
        else [Proceed(c.marking), Send(c.handling), Record(c.recording)]
  }

  lemma StepsOne(w: World, a: Event)
    ensures Steps(w, [a]) == Next(w, a)
  {
    StepsAppend(w, [], a);
    assert [] + [a] == [a];
  }

  // What resolving a run writes does not depend on the delivery under way.
  lemma RegisteringStep(w: World, pc: Pc, o: Item, c: Circumstances)
    requires c.resolution.Changed? || c.resolution.Unreachable? || c.resolution.Resolved?
    ensures Steps(w.(pc := pc), Registering(o, c)) ==
      Next(w, if c.resolution.Changed? then FailRun(o.run, c.registering) else OtherUpdate(c.registering)).(pc := pc)
  {
    var e := if c.resolution.Changed? then FailRun(o.run, c.registering) else OtherUpdate(c.registering);
    assert Registering(o, c) == [e];
    StepsOne(w.(pc := pc), e);
    StoreOnly(w, pc, e);
  }

  lemma StoreOnly(w: World, pc: Pc, e: Event)
    requires e.FailRun? || e.OtherUpdate?
    ensures Next(w.(pc := pc), e) == Next(w, e).(pc := pc)
  {
    if e.FailRun? {
      UpdateOnly(w, pc, WithRunFailed(w.memory, e.run), e.fate);
    } else {
      UpdateOnly(w, pc, w.memory, e.fate);
    }
  }

  lemma UpdateOnly(w: World, pc: Pc, next: Items, fate: Fate)
    ensures Updated(w.(pc := pc), next, fate) == Updated(w, next, fate).(pc := pc)
  {
  }

  lemma StepsTwo(w: World, a: Event, b: Event)
    ensures Steps(w, [a, b]) == Next(Next(w, a), b)
  {
    StepsOne(w, a);
    StepsAppend(w, [a], b);
    assert [a] + [b] == [a, b];
  }

  lemma StepsThree(w: World, a: Event, b: Event, c: Event)
    ensures Steps(w, [a, b, c]) == Next(Next(Next(w, a), b), c)
  {
    StepsTwo(w, a, b);
    StepsAppend(w, [a, b], c);
    assert [a, b] + [c] == [a, b, c];
  }

  // The marking of a loaded item, unless it was attempted before.
  lemma MarkingStep(w: World, id: string, out: Item, fate: Fate)
    requires id in w.memory && w.memory[id] == out
    ensures Next(w.(pc := Loaded(id, out)), Proceed(fate)) ==
      if out.attempted then w.(pc := Sending(id, out))
      else Set(w, id, MarkedAttempted(out), fate).(pc := if fate == Synced then Sending(id, out) else Idle)
  {
  }

  // The steps of an item that passed its checks.
  lemma DeliverySteps(w: World, out: Item, c: Circumstances)
    requires c.resolution.Resolved? && Check(out, c.resolution) == Eligible
    ensures var marked := Next(w, Proceed(c.marking));
      Steps(w, Delivery(out, c)) ==
        if !out.attempted && c.marking != Synced then marked
        else if RequestOf(out).None? then Next(marked, FailKind(c.recording))
        else Next(Next(marked, Send(c.handling)), Record(c.recording))
  {
    StepsOne(w, Proceed(c.marking));
    StepsTwo(w, Proceed(c.marking), FailKind(c.recording));
    StepsThree(w, Proceed(c.marking), Send(c.handling), Record(c.recording));
  }

  // When a first attempt is not made: for good if the run is over, cannot reach agents, or a recipient is
  // unavailable; not now if it is unknown who is available. A replay is never checked.
  lemma CheckExact(o: Item, r: Resolution)
    requires r.Resolved?
    ensures var agents := o.kind == Mesh || o.kind == Attach;
      var missing := o.kind == Mesh && r.reachable.Some? && exists p :: p in o.recipients && p !in r.reachable.value;
      var unknown := o.kind == Mesh && r.reachable == None && o.recipients != [];
      && (Check(o, r) == Ineligible <==> !o.attempted && (r.terminal || (agents && !r.collaboration) || missing))
      && (Check(o, r) == Unreadable <==> !o.attempted && !r.terminal && r.collaboration && unknown)
  {
  }

  // An eligible item whose updates are all saved: it is accepted when the receiver took it and its answer came back, failed
  // when the receiver refused it for good and said so, and otherwise its outcome stays unknown, to be sent again.
  lemma OutcomeExact(w: World, id: string, out: Item, c: Circumstances)
    requires Inv(w) && w.pc == Idle && id in w.memory && w.memory[id] == out && Pending(out)
    requires c.resolution.Resolved? && Check(out, c.resolution) == Eligible && out.kind != OtherKind
    requires c.marking == Synced && c.recording == Synced
    ensures var v := Steps(w.(pc := Loaded(id, out)), Delivery(out, c)); var h := c.handling;
      && id in v.memory && v.pc == Idle
      && (v.memory[id].status == Accepted <==> h.arrives && !h.refused && h.heard)
      && (v.memory[id].status == Failed <==> h.arrives && h.refused && h.heard)
      && (v.memory[id].status == Unknown <==> !h.arrives || !h.heard)
      && v.memory[id].attempted
      && |v.attempts| == |w.attempts| + 1 && v.attempts[|w.attempts|].id == id
      && (forall other :: other in w.memory && other != id ==> other in v.memory && v.memory[other] == w.memory[other])
  {
    InMemory(w, id);
    MarkedShows(w, id, out);
    EligibleSteps(w.(pc := Loaded(id, out)), out, c);
    var marked := Next(w.(pc := Loaded(id, out)), Proceed(Synced));
    SendAnswers(marked, id, out, c.handling);
    RecordShows(Next(marked, Send(c.handling)), id);
  }

  lemma EligibleSteps(w: World, out: Item, c: Circumstances)
    requires c.resolution.Resolved? && Check(out, c.resolution) == Eligible && out.kind != OtherKind && c.marking == Synced
    ensures Steps(w, Delivery(out, c)) == Next(Next(Next(w, Proceed(Synced)), Send(c.handling)), Record(c.recording))
    ensures RequestOf(out).Some?
  {
    DeliverySteps(w, out, c);
  }

  lemma MarkedShows(w: World, id: string, out: Item)
    requires id in w.memory && w.memory[id] == out && Pending(out) && StatusesOk(out)
    ensures var v := Next(w.(pc := Loaded(id, out)), Proceed(Synced));
      && v.pc == Sending(id, out) && v.attempts == w.attempts
      && v.memory == w.memory[id := MarkedAttempted(out)]
  {
    MarkingStep(w, id, out, Synced);
    assert out.attempted ==> MarkedAttempted(out) == out && w.memory[id := out] == w.memory;
  }

  lemma SendAnswers(w: World, id: string, out: Item, h: Handling)
    requires w.pc == Sending(id, out) && RequestOf(out).Some?
    ensures var v := Next(w, Send(h));
      && v.pc.Answered? && v.pc.id == id && v.memory == w.memory
      && (v.pc.reply.Taken? <==> h.arrives && !h.refused && h.heard)
      && (v.pc.reply.Rejected? <==> h.arrives && h.refused && h.heard)
      && |v.attempts| == |w.attempts| + 1 && v.attempts[|w.attempts|].id == id
  {
  }

  lemma RecordShows(w: World, id: string)
    requires w.pc.Answered? && w.pc.id == id && id in w.memory && w.memory[id].status == Unknown && w.memory[id].attempted
    ensures var v := Next(w, Record(Synced));
      && id in v.memory && v.pc == Idle && v.attempts == w.attempts && v.memory[id].attempted
      && v.memory[id].status == (match w.pc.reply case Taken(_) => Accepted case Rejected => Failed case Lost => Unknown)
      && (forall other :: other in w.memory && other != id ==> other in v.memory && v.memory[other] == w.memory[other])
  {
  }

  // The recipient named first in the list that cannot be reached.
  method FirstUnreachable(recipients: seq<string>, reachable: set<string>) returns (p: Option<string>)
    ensures p.None? <==> forall r :: r in recipients ==> r in reachable
    ensures p.Some? ==> p.value in recipients && p.value !in reachable
  {
    p := None;
    for i := 0 to |recipients|
      invariant forall r :: r in recipients[..i] ==> r in reachable
    {
      if recipients[i] !in reachable {
        return Some(recipients[i]);
      }
    }
    assert recipients[..|recipients|] == recipients;
  }

  method AllOf(statuses: map<string, Status>) returns (all: bool)
    ensures all == AllReplied(statuses)
  {
    all := true;
    var rest := statuses.Keys;
    while rest != {}
      invariant rest <= statuses.Keys
      invariant all <==> forall r :: r in statuses && r !in rest ==> statuses[r] == Replied
      decreases |rest|
    {
      var r :| r in rest;
      if statuses[r] != Replied {
        all := false;
      }
      rest := rest - {r};
    }
  }

  // Fails every item of a run that has not been answered yet.
  method FailItems(items: Items, run: string) returns (next: Items)
    ensures next == WithRunFailed(items, run)
  {
    next := items;
    var rest := items.Keys;
    while rest != {}
      invariant rest <= items.Keys && next.Keys == items.Keys
      invariant forall id :: id in items ==> next[id] == if id in rest then items[id] else WithRunFailed(items, run)[id]
      decreases |rest|
    {
      var id :| id in rest;
      if items[id].run == run && Pending(items[id]) {
        next := next[id := MarkedFailed(items[id])];
      }
      rest := rest - {id};
    }
  }

  method MarkReply(item: Item, from: Channel, run: string, sender: string, inReplyTo: string) returns (o: Item)
    ensures o == MarkedReplied(item, from, run, sender, inReplyTo)
  {
    o := item;
    var concerned := if from == InMesh then o.status == Accepted || o.status == Replied else o.kind == Discussion;
    if o.run == run && concerned && o.message != "" && o.message == inReplyTo && sender in o.recipientStatus {
      o := o.(recipientStatus := o.recipientStatus[sender := Replied]);
      var all := AllOf(o.recipientStatus);
      if all {
        o := o.(status := Replied);
      }
    }
  }

  // Records a reply at every item whose AFM message it answers.
  method MarkReplies(items: Items, from: Channel, run: string, sender: string, inReplyTo: string) returns (next: Items)
    ensures next == WithReply(items, from, run, sender, inReplyTo)
  {
    next := items;
    var rest := items.Keys;
    while rest != {}
      invariant rest <= items.Keys && next.Keys == items.Keys
      invariant forall id :: id in items ==>
        next[id] == if id in rest then items[id] else MarkedReplied(items[id], from, run, sender, inReplyTo)
      decreases |rest|
    {
      var id :| id in rest;
      var o := MarkReply(items[id], from, run, sender, inReplyTo);
      next := next[id := o];
      rest := rest - {id};
    }
  }

  // The checks as they run, one after the other.
  method CheckItem(o: Item, r: Resolution) returns (v: Verdict)
    requires r.Resolved?
    ensures v == Check(o, r)
  {
    if !o.attempted && r.terminal {
      return Ineligible;
    }
    if !o.attempted && (o.kind == Mesh || o.kind == Attach) && !r.collaboration {
      return Ineligible;
    }
    if !o.attempted && o.kind == Mesh && |o.recipients| > 0 {
      if r.reachable.None? {
        return Unreadable;
      }
      var missing := FirstUnreachable(o.recipients, r.reachable.value);
      if missing.Some? {
        return Ineligible;
      }
    }
    return Eligible;
  }

  class Bot {
    var memory: Items
    var file: Items
    ghost var maybe: set<Items>
    ghost var unsynced: set<string>
    ghost var dropped: bool
    var log: seq<Message>
    ghost var born: map<string, Item>
    ghost var attempts: seq<Attempt>

    // The bot between two deliveries.
    ghost function Contents(): World
      reads this
    {
      World(memory, file, maybe, Idle, log, born, attempts, unsynced, dropped)
    }

    constructor ()
      ensures Contents() == Start()
    {
      memory, file, maybe, unsynced, dropped := map[], map[], {map[]}, {}, false;
      log, born, attempts := [], map[], [];
    }

    // Saves `next` and keeps memory in step with the visible file.
    method Update(next: Items, fate: Fate) returns (ok: bool)
      modifies this`memory, this`file, this`maybe, this`unsynced
      ensures ok == (fate == Synced)
      ensures Contents() == Updated(old(Contents()), next, fate)
    {
      ok := fate == Synced;
      if fate != NotRenamed {
        unsynced := if fate == Synced then {} else unsynced + NewlyMarked(memory, next);
        maybe := if fate == Synced then {next} else maybe + {next};
        file := next;
        memory := next;
      }
    }

    method SetOutbound(id: string, o: Item, fate: Fate) returns (ok: bool)
      modifies this`memory, this`file, this`maybe, this`unsynced
      ensures Contents() == Set(old(Contents()), id, o, fate)
      ensures ok == (id in old(memory) && fate == Synced)
    {
      ok := false;
      if id in memory {
        ok := Update(memory[id := o], fate);
      }
    }

    // One request to the receiver and what the bot hears of it.
    method Post(id: string, out: Item, request: Request, h: Handling) returns (reply: Reply)
      requires RequestOf(out) == Some(request)
      modifies this`log, this`attempts
      ensures Contents().(pc := Answered(id, out, reply)) == Next(old(Contents()).(pc := Sending(id, out)), Send(h))
    {
      attempts := attempts + [Attempt(id, request)];
      reply := Lost;
      if h.arrives {
        if h.refused {
          reply := if h.heard then Rejected else Lost;
        } else {
          reply := if h.heard then Taken(ReceiptFor(log, request, h.receipt)) else Lost;
          log := Committed(log, request, h.receipt);
        }
      }
    }

    // Sends a marked item and records what became of it.
    method Attempted(id: string, out: Item, c: Circumstances)
      requires id in memory
      modifies this
      ensures RequestOf(out).None? ==>
        Contents() == Next(old(Contents()).(pc := Sending(id, out)), FailKind(c.recording))
      ensures RequestOf(out).Some? ==>
        Contents() == Next(Next(old(Contents()).(pc := Sending(id, out)), Send(c.handling)), Record(c.recording))
    {
      var request := RequestOf(out);
      if request.None? {
        var _ := SetOutbound(id, MarkedFailed(memory[id]), c.recording);
        return;
      }
      var reply := Post(id, out, request.value, c.handling);
      match reply
      case Taken(receipt) => var _ := SetOutbound(id, MarkedAccepted(memory[id], receipt), c.recording);
      case Rejected => var _ := SetOutbound(id, MarkedFailed(memory[id]), c.recording);
      case Lost =>
    }

    // What resolving the run saves; errors of these updates are ignored.
    method Resolve(id: string, o: Item, c: Circumstances)
      modifies this
      ensures Contents().(pc := Loaded(id, o)) == Steps(old(Contents()).(pc := Loaded(id, o)), Registering(o, c))
      ensures !c.resolution.Changed? ==> memory == old(memory)
      ensures memory.Keys == old(memory).Keys
    {
      ghost var w := Contents();
      if c.resolution.Changed? {
        RegisteringStep(w, Loaded(id, o), o, c);
        FailRunItems(o.run, c.registering);
      } else if c.resolution.Unreachable? || c.resolution.Resolved? {
        RegisteringStep(w, Loaded(id, o), o, c);
        var _ := Update(memory, c.registering);
      }
    }

    // One delivery without disturbance does exactly the protocol's steps, in their order.
    method Deliver(id: string, c: Circumstances)
      modifies this
      ensures id !in old(memory) || !Pending(old(memory)[id]) ==> Contents() == old(Contents())
      ensures id in old(memory) && Pending(old(memory)[id]) ==>
        var o := old(memory)[id];
        Contents() == Steps(Steps(Next(old(Contents()), Load(id)), Registering(o, c)), Delivery(o, c))
    {
      if id !in memory {
        return;
      }
      var out := memory[id];
      if out.status != Queued && out.status != Unknown {
        return;
      }
      assert Next(Contents(), Load(id)) == Contents().(pc := Loaded(id, out));
      Resolve(id, out, c);
      Decide(id, out, c);
    }

    // What is done with a loaded item once its run is resolved.
    method Decide(id: string, out: Item, c: Circumstances)
      requires id in memory && Pending(out) && (c.resolution.Resolved? ==> memory[id] == out)
      modifies this
      ensures Contents() == Steps(old(Contents()).(pc := Loaded(id, out)), Delivery(out, c))
    {
      ghost var w := Contents().(pc := Loaded(id, out));
      if c.resolution.Unreachable? || c.resolution.Silent? {
        StepsOne(w, GiveUp);
        return;
      }
      if !c.resolution.Resolved? {
        StepsOne(w, FailStale(c.failing));
        var _ := SetOutbound(id, MarkedFailed(memory[id]), c.failing);
        return;
      }
      var verdict := CheckItem(out, c.resolution);
      if verdict == Unreadable {
        StepsOne(w, GiveUp);
        return;
      }
      if verdict == Ineligible {
        StepsOne(w, FailIneligible(c.failing));
        var _ := SetOutbound(id, MarkedFailed(memory[id]), c.failing);
        return;
      }
      Proceed(id, out, c);
    }

    // Marks an item that passed the checks, unless it is marked already, and attempts it.
    method Proceed(id: string, out: Item, c: Circumstances)
      requires id in memory && memory[id] == out && Pending(out)
      requires c.resolution.Resolved? && Check(out, c.resolution) == Eligible
      modifies this
      ensures Contents() == Steps(old(Contents()).(pc := Loaded(id, out)), Delivery(out, c))
    {
      MarkingStep(Contents(), id, out, c.marking);
      DeliverySteps(Contents().(pc := Loaded(id, out)), out, c);
      if !out.attempted {
        var ok := SetOutbound(id, MarkedAttempted(out), c.marking);
        if !ok {
          return;
        }
      }
      Attempted(id, out, c);
    }

    // A run that changed takes its unanswered items with it.
    method FailRunItems(run: string, fate: Fate)
      modifies this
      ensures Contents() == Next(old(Contents()), FailRun(run, fate))
    {
      var next := FailItems(memory, run);
      var _ := Update(next, fate);
    }

    method ProcessReply(from: Channel, run: string, sender: string, inReplyTo: string, fate: Fate)
      modifies this
      ensures Contents() == Next(old(Contents()), ReadReply(from, run, sender, inReplyTo, fate))
    {
      var next := MarkReplies(memory, from, run, sender, inReplyTo);
      var _ := Update(next, fate);
    }
  }
}
