/** A clock that moves only when told to, and the timers and tickers waiting on it. */
module FakeClock {

  // ----- Waiting points as values -----

  datatype Tick = Empty | Full(at: int)

  /** A waiting point fires once, or again and again if its period is positive. ch holds the unconsumed tick. */
  datatype Point = Point(deadline: int, period: int, ch: Tick)

  function Send(ch: Tick, now: int): Tick
  {
    if ch.Empty? then Full(now) else ch
  }

  /** The first deadline after now, going by whole periods: intervals slept through are skipped. */
  function NextDeadline(deadline: int, period: int, now: int): (next: int)
    requires period > 0
    ensures next > now && next >= deadline
    ensures deadline <= now ==> next - period <= now
    decreases if deadline > now then 0 else now - deadline + 1
  {
    if deadline > now then deadline else NextDeadline(deadline + period, period, now)
  }

  predicate Due(p: Point, now: int)
  {
    p.deadline <= now
  }

  /** A point waits on unless it was due and fires only once. */
  predicate WaitsOn(p: Point, now: int)
  {
    !Due(p, now) || p.period > 0
  }

  function Fired(p: Point, now: int): Point
  {
    if !Due(p, now) then p
    else p.(ch := Send(p.ch, now), deadline := if p.period > 0 then NextDeadline(p.deadline + p.period, p.period, now) else p.deadline)
  }

  /** The clock and every point registered on it; waiters lists those still waiting, in order. */
  datatype World<Id> = World(now: int, points: map<Id, Point>, waiters: seq<Id>)

  predicate Backed<Id>(waiters: seq<Id>, points: map<Id, Point>)
  {
    forall i :: 0 <= i < |waiters| ==> waiters[i] in points
  }

  predicate NoRepeats<Id(==)>(s: seq<Id>)
  {
    forall i, j :: 0 <= i < j < |s| ==> s[i] != s[j]
  }

  predicate WellFormed<Id(==)>(w: World<Id>)
  {
    Backed(w.waiters, w.points) && NoRepeats(w.waiters)
  }

  /** The waiters that wait on, in order. */
  function Remaining<Id>(waiters: seq<Id>, points: map<Id, Point>, now: int): seq<Id>
    requires Backed(waiters, points)
  {
    if waiters == [] then [] else
      var front := Remaining(waiters[..|waiters| - 1], points, now);
      if WaitsOn(points[waiters[|waiters| - 1]], now) then front + [waiters[|waiters| - 1]] else front
  }

  lemma {:induction false} RemainingFits<Id>(waiters: seq<Id>, points: map<Id, Point>, now: int)
    requires Backed(waiters, points)
    ensures forall id :: id in Remaining(waiters, points, now) <==> id in waiters && WaitsOn(points[id], now)
    ensures Backed(Remaining(waiters, points, now), points)
    ensures NoRepeats(waiters) ==> NoRepeats(Remaining(waiters, points, now))
  {
    if waiters != [] {
      var front, last := waiters[..|waiters| - 1], waiters[|waiters| - 1];
      RemainingFits(front, points, now);
      assert waiters == front + [last];
      if NoRepeats(waiters) {
        assert last !in front;
      }
    }
  }

  function FiredAll<Id>(waiters: seq<Id>, points: map<Id, Point>, now: int): map<Id, Point>
  {
    map id | id in points :: if id in waiters then Fired(points[id], now) else points[id]
  }

  function Advanced<Id>(w: World<Id>, d: int): (after: World<Id>)
    requires Backed(w.waiters, w.points)
    ensures Backed(after.waiters, after.points)
  {
    var now := w.now + d;
    RemainingFits(w.waiters, w.points, now);
    var after := World(now, FiredAll(w.waiters, w.points, now), Remaining(w.waiters, w.points, now));
    after
  }

  lemma AdvancedFits<Id>(w: World<Id>, d: int)
    requires WellFormed(w)
    ensures WellFormed(Advanced(w, d))
  {
    RemainingFits(w.waiters, w.points, w.now + d);
  }

  // ----- The clock object -----

  class Waiter {
    var deadline: int
    var period: int
    var ch: Tick

    constructor (deadline: int, period: int)
      ensures this.deadline == deadline && this.period == period && ch == Empty
    {
      this.deadline, this.period, this.ch := deadline, period, Empty;
    }

    ghost function Contents(): Point
      reads this
    {
      Point(deadline, period, ch)
    }

    /** Sends a tick unless the channel still holds one, and sets a ticker to its next deadline. */
    method Fire(now: int)
      requires Due(Contents(), now)
      modifies this
      ensures Contents() == Fired(old(Contents()), now)
    {
      ch := if ch.Empty? then Full(now) else ch;
      if period <= 0 {
        return;
      }
      var next := deadline + period;
      while next <= now
        invariant NextDeadline(next, period, now) == NextDeadline(deadline + period, period, now)
        invariant unchanged(`deadline) && unchanged(`period) && ch == Send(old(ch), now)
        decreases now - next
      {
        next := next + period;
      }
      deadline := next;
    }
  }

  class Clock {
    var now: int
    var waiters: seq<Waiter>
    ghost var registered: set<Waiter>

    ghost function Contents(): World<Waiter>
      reads this, registered
    {
      World(now, PointsOf(registered), waiters)
    }

    ghost predicate Valid()
      reads this, registered
    {
      WellFormed(Contents())
    }

    constructor (start: int)
      ensures Valid() && Contents() == World(start, map[], []) && registered == {}
    {
      now, waiters, registered := start, [], {};
    }

    method Register(d: int, period: int) returns (w: Waiter)
      requires Valid()
      modifies this
      ensures Valid() && fresh(w) && registered == old(registered) + {w}
      ensures Contents().waiters == old(Contents()).waiters + [w]
      ensures Contents().points == old(Contents()).points[w := Point(now + d, period, Empty)]
      ensures Contents() == Step(old(Contents()), Event.Register(w, d, period))
      ensures now == old(now)
    {
      w := new Waiter(now + d, period);
      waiters := waiters + [w];
      registered := registered + {w};
    }

    /** Takes the point off the list and tells whether it was on it. */
    method Remove(w: Waiter) returns (wasLive: bool)
      requires Valid() && w in registered
      modifies this`waiters
      ensures Valid() && wasLive == (w in old(waiters)) && w !in waiters
      ensures Contents() == Step(old(Contents()), Stop(w))
    {
      for i := 0 to |waiters|
        invariant waiters == old(waiters)
        invariant forall j :: 0 <= j < i ==> waiters[j] != w
      {
        if waiters[i] == w {
          WithoutAt(waiters, i);
          RestDistinct(waiters, i);
          waiters := waiters[..i] + waiters[i + 1..];
          return true;
        }
      }
      WithoutAbsent(waiters, w);
      wasLive := false;
    }

    /** A timer set anew: an unconsumed tick of its previous setting is gone. */
    method Reset(w: Waiter, d: int) returns (wasLive: bool)
      requires Valid() && w in registered
      modifies this`waiters, w
      ensures Valid() && registered == old(registered) && wasLive == (w in old(waiters))
      ensures Contents() == Step(old(Contents()), Event.Reset(w, d))
      ensures w.ch == Empty && w.deadline == now + d && waiters == Without(old(waiters), w) + [w]
      ensures now == old(now) && w.period == old(w.period)
    {
      wasLive := Remove(w);
      w.ch := Empty;
      w.deadline := now + d;
      waiters := waiters + [w];
    }

    /** Reads the channel of a point. */
    method Receive(w: Waiter) returns (tick: Tick)
      requires Valid() && w in registered
      modifies w`ch
      ensures Valid() && registered == old(registered) && tick == old(w.ch)
      ensures Contents() == Step(old(Contents()), Event.Receive(w)) && w.ch == Empty
    {
      tick := w.ch;
      w.ch := Empty;
      assert Contents().points == old(Contents()).points[w := old(Contents()).points[w].(ch := Empty)];
    }

    /** Moves the clock and fires every point that has come due, in registration order. */
    method Advance(d: int)
      requires Valid()
      modifies this`now, this`waiters, registered
      ensures Valid() && registered == old(registered)
      ensures Contents() == Advanced(old(Contents()), d)
    {
      AdvancedFits(Contents(), d);
      now := now + d;
      waiters := FireAll(waiters, now, registered);
    }
  }

  ghost function PointsOf(registered: set<Waiter>): map<Waiter, Point>
    reads registered
  {
    map w | w in registered :: w.Contents()
  }

  method FireAll(waiters: seq<Waiter>, now: int, ghost registered: set<Waiter>) returns (remaining: seq<Waiter>)
    requires Backed(waiters, PointsOf(registered)) && NoRepeats(waiters)
    modifies registered
    ensures remaining == Remaining(waiters, old(PointsOf(registered)), now)
    ensures PointsOf(registered) == FiredAll(waiters, old(PointsOf(registered)), now)
  {
    remaining := [];
    ghost var points := PointsOf(registered);
    assert waiters[..0] == [];
    assert PointsOf(registered) == FiredAll([], points, now);
    for i := 0 to |waiters|
      invariant remaining == Remaining(waiters[..i], points, now)
      invariant PointsOf(registered) == FiredAll(waiters[..i], points, now)
    {
      var w := waiters[i];
      NextOf(waiters, i, points, now);
      ghost var before := PointsOf(registered);
      assert w in points && w in registered && before[w] == w.Contents();
      assert before[w] == points[w];
      var due, repeats := w.deadline <= now, w.period > 0;
      if due {
        w.Fire(now);
      }
      assert PointsOf(registered) == before[w := Fired(points[w], now)];
      if !due || repeats {
        remaining := remaining + [w];
      }
    }
    assert waiters[..|waiters|] == waiters;
  }

  lemma NextOf<Id>(waiters: seq<Id>, i: nat, points: map<Id, Point>, now: int)
    requires i < |waiters| && Backed(waiters, points) && NoRepeats(waiters)
    ensures waiters[i] !in waiters[..i] && waiters[i] in points
    ensures forall id :: id in waiters[..i + 1] <==> id in waiters[..i] || id == waiters[i]
    ensures Remaining(waiters[..i + 1], points, now) ==
      Remaining(waiters[..i], points, now) + if WaitsOn(points[waiters[i]], now) then [waiters[i]] else []
    ensures FiredAll(waiters[..i + 1], points, now) ==
      FiredAll(waiters[..i], points, now)[waiters[i] := Fired(points[waiters[i]], now)]
  {
    assert waiters[..i + 1] == waiters[..i] + [waiters[i]];
    assert waiters[..i + 1][..i] == waiters[..i];
  }

  function Without<Id(==)>(s: seq<Id>, x: Id): seq<Id>
  {
    if s == [] then []
    else if s[0] == x then Without(s[1..], x) else [s[0]] + Without(s[1..], x)
  }

  lemma {:induction false} WithoutAbsent<Id>(s: seq<Id>, x: Id)
    requires forall i :: 0 <= i < |s| ==> s[i] != x
    ensures Without(s, x) == s
  {
    if s != [] { WithoutAbsent(s[1..], x); }
  }

  lemma {:induction false} WithoutAt<Id>(s: seq<Id>, i: nat)
    requires i < |s| && NoRepeats(s)
    ensures Without(s, s[i]) == s[..i] + s[i + 1..]
  {
    if i == 0 {
      WithoutAbsent(s[1..], s[0]);
      assert s[..0] + s[1..] == s[1..];
    } else {
      WithoutAt(s[1..], i - 1);
      assert s[1..][..i - 1] == s[1..i] && s[1..][i..] == s[i + 1..];
      assert [s[0]] + (s[1..i] + s[i + 1..]) == s[..i] + s[i + 1..];
    }
  }

  lemma RestDistinct<Id>(s: seq<Id>, i: nat)
    requires i < |s| && NoRepeats(s)
    ensures NoRepeats(s[..i] + s[i + 1..]) && s[i] !in s[..i] + s[i + 1..]
  {
    var rest := s[..i] + s[i + 1..];
    assert forall k :: 0 <= k < |rest| ==> rest[k] == s[if k < i then k else k + 1];
  }

  // ----- Advancing in two goes -----

  /** Alike but for the time stamps of unconsumed ticks. */
  predicate SameBut(p: Point, q: Point)
  {
    p.deadline == q.deadline && p.period == q.period && p.ch.Full? == q.ch.Full?
  }

  lemma {:induction false} NextTwice(deadline: int, period: int, t: int, u: int)
    requires period > 0 && t <= u
    ensures NextDeadline(NextDeadline(deadline, period, t), period, u) == NextDeadline(deadline, period, u)
    decreases if deadline > t then 0 else t - deadline + 1
  {
    if deadline <= t { NextTwice(deadline + period, period, t, u); }
  }

  lemma {:induction false} FiredTwice(p: Point, t: int, u: int)
    requires t <= u
    ensures WaitsOn(p, t) && WaitsOn(Fired(p, t), u) <==> WaitsOn(p, u)
    ensures WaitsOn(p, t) ==> SameBut(Fired(Fired(p, t), u), Fired(p, u))
    ensures !WaitsOn(p, t) ==> SameBut(Fired(p, t), Fired(p, u))
  {
    if Due(p, t) && p.period > 0 {
      NextTwice(p.deadline + p.period, p.period, t, u);
    }
  }

  lemma {:induction false} RemainingTwice<Id>(w: World<Id>, a: int, b: int, n: nat)
    requires WellFormed(w) && a >= 0 && b >= 0 && n <= |w.waiters|
    ensures var t, u := w.now + a, w.now + a + b;
      var first := Remaining(w.waiters[..n], w.points, t);
      var points := Advanced(w, a).points;
      Backed(first, points) && Remaining(first, points, u) == Remaining(w.waiters[..n], w.points, u)
  {
    if n > 0 {
      RemainingTwice(w, a, b, n - 1);
      var id := w.waiters[n - 1];
      var t, u := w.now + a, w.now + a + b;
      assert w.waiters[..n][..n - 1] == w.waiters[..n - 1];
      FiredTwice(w.points[id], t, u);
      var front := Remaining(w.waiters[..n - 1], w.points, t);
      assert (front + [id])[..|front|] == front;
      assert Advanced(w, a).points[id] == Fired(w.points[id], t);
    } else {
      assert w.waiters[..0] == [];
    }
  }

  lemma PointTwice<Id>(w: World<Id>, a: int, b: int, id: Id)
    requires WellFormed(w) && a >= 0 && b >= 0 && id in w.points
    ensures SameBut(Advanced(Advanced(w, a), b).points[id], Advanced(w, a + b).points[id])
  {
    RemainingFits(w.waiters, w.points, w.now + a);
    FiredTwice(w.points[id], w.now + a, w.now + a + b);
    var mid := Advanced(w, a);
    if id in w.waiters {
      assert mid.points[id] == Fired(w.points[id], w.now + a);
      assert id in mid.waiters <==> WaitsOn(w.points[id], w.now + a);
    } else {
      assert id !in mid.waiters;
    }
  }

  /** Main result: advancing by a and then by b leaves the same waiters in the same order, the same deadlines and the
      same channels occupied as advancing by a + b. */
  lemma AdvanceComposes<Id(!new)>(w: World<Id>, a: int, b: int)
    requires WellFormed(w) && a >= 0 && b >= 0
    ensures var two, one := Advanced(Advanced(w, a), b), Advanced(w, a + b);
      && two.now == one.now && two.waiters == one.waiters && two.points.Keys == one.points.Keys
      && forall id :: id in one.points ==> SameBut(two.points[id], one.points[id])
  {
    WaitersTwice(w, a, b);
    forall id | id in w.points
      ensures SameBut(Advanced(Advanced(w, a), b).points[id], Advanced(w, a + b).points[id])
    {
      PointTwice(w, a, b, id);
    }
  }

  lemma WaitersTwice<Id>(w: World<Id>, a: int, b: int)
    requires WellFormed(w) && a >= 0 && b >= 0
    ensures Backed(Advanced(w, a).waiters, Advanced(w, a).points)
    ensures Advanced(Advanced(w, a), b).waiters == Advanced(w, a + b).waiters
  {
    assert w.waiters[..|w.waiters|] == w.waiters;
    RemainingTwice(w, a, b, |w.waiters|);
    assert w.now + a + b == w.now + (a + b);
  }

  // ----- Tickers over a run -----

  function Periods(k: nat, period: int): int
  {
    k * period
  }

  /** a lies whole periods after b. */
  ghost predicate InStep(a: int, b: int, period: int)
  {
    exists k: nat :: a == b + Periods(k, period)
  }

  lemma InStepRefl(a: int, period: int)
    ensures InStep(a, a, period)
  {
    assert a == a + Periods(0, period);
  }

  lemma InStepFurther(a: int, b: int, period: int)
    requires InStep(a, b + period, period)
    ensures InStep(a, b, period)
  {
    var k: nat :| a == b + period + Periods(k, period);
    assert Periods(k + 1, period) == Periods(k, period) + period;
  }

  lemma InStepTransitive(a: int, b: int, c: int, period: int)
    requires InStep(a, b, period) && InStep(b, c, period)
    ensures InStep(a, c, period)
  {
    var k: nat :| a == b + Periods(k, period);
    var l: nat :| b == c + Periods(l, period);
    assert Periods(k + l, period) == Periods(k, period) + Periods(l, period);
  }

  lemma {:induction false} NextInStep(deadline: int, period: int, now: int)
    requires period > 0
    ensures InStep(NextDeadline(deadline, period, now), deadline, period)
    decreases if deadline > now then 0 else now - deadline + 1
  {
    if deadline <= now {
      NextInStep(deadline + period, period, now);
      InStepFurther(NextDeadline(deadline, period, now), deadline, period);
    } else {
      InStepRefl(deadline, period);
    }
  }

  /** What happens to a clock: points are registered and stopped, timers set anew, channels read, and time moved on. */
  datatype Event<Id> =
    | Register(id: Id, d: int, period: int)
    | Stop(id: Id)
    | Reset(id: Id, d: int)
    | Receive(id: Id)
    | Advance(elapsed: nat)

  function Step<Id(==)>(w: World<Id>, e: Event<Id>): World<Id>
    requires Backed(w.waiters, w.points)
  {
    match e
    case Register(id, d, period) =>
      if id in w.points then w
      else World(w.now, w.points[id := Point(w.now + d, period, Empty)], w.waiters + [id])
    case Stop(id) => w.(waiters := Without(w.waiters, id))
    case Reset(id, d) =>
      if id !in w.points then w
      else World(w.now, w.points[id := Point(w.now + d, w.points[id].period, Empty)], Without(w.waiters, id) + [id])
    case Receive(id) =>
      if id !in w.points then w else w.(points := w.points[id := w.points[id].(ch := Empty)])
    case Advance(d) => Advanced(w, d)
  }

  lemma WithoutMembers<Id>(s: seq<Id>, x: Id)
    requires NoRepeats(s)
    ensures NoRepeats(Without(s, x)) && forall t :: t in Without(s, x) <==> t in s && t != x
    ensures forall i :: 0 <= i < |Without(s, x)| ==> Without(s, x)[i] in s
  {
    if x in s {
      var i :| 0 <= i < |s| && s[i] == x;
      WithoutAt(s, i);
      RestDistinct(s, i);
      assert s == s[..i] + [x] + s[i + 1..];
    } else {
      WithoutAbsent(s, x);
    }
  }

  /** No event lists a point twice. */
  lemma StepWellFormed<Id>(w: World<Id>, e: Event<Id>)
    requires WellFormed(w)
    ensures WellFormed(Step(w, e))
  {
    match e
    case Register(id, _, _) => assert id !in w.points ==> id !in w.waiters;
    case Stop(id) => WithoutMembers(w.waiters, id);
    case Reset(id, _) => WithoutMembers(w.waiters, id);
    case Receive(_) =>
    case Advance(d) => AdvancedFits(w, d);
  }

  function Run<Id(==)>(w: World<Id>, es: seq<Event<Id>>): (after: World<Id>)
    requires WellFormed(w)
    ensures WellFormed(after)
  {
    if es == [] then w
    else
      var before := Run(w, es[..|es| - 1]);
      StepWellFormed(before, es[|es| - 1]);
      Step(before, es[|es| - 1])
  }

  ghost predicate InStepWith<Id>(after: World<Id>, w: World<Id>, id: Id)
    requires id in w.points
  {
    && WellFormed(after) && id in after.waiters
    && after.points[id].period == w.points[id].period
    && after.points[id].deadline > after.now
    && InStep(after.points[id].deadline, w.points[id].deadline, w.points[id].period)
  }

  /** An advance leaves a ticker in step. */
  lemma TickerAdvance<Id>(w: World<Id>, before: World<Id>, d: nat, id: Id)
    requires id in w.points && w.points[id].period > 0 && InStepWith(before, w, id)
    ensures InStepWith(Advanced(before, d), w, id)
  {
    var p, now := before.points[id], before.now + d;
    RemainingFits(before.waiters, before.points, now);
    if Due(p, now) {
      var next := NextDeadline(p.deadline + p.period, p.period, now);
      NextInStep(p.deadline + p.period, p.period, now);
      InStepFurther(next, p.deadline, p.period);
      InStepTransitive(next, p.deadline, w.points[id].deadline, p.period);
    }
  }

  lemma TickerStep<Id>(w: World<Id>, before: World<Id>, e: Event<Id>, id: Id)
    requires id in w.points && w.points[id].period > 0 && InStepWith(before, w, id)
    requires e != Stop(id) && !(e.Reset? && e.id == id)
    ensures InStepWith(Step(before, e), w, id)
  {
    StepWellFormed(before, e);
    match e
    case Register(other, _, _) =>
      assert other !in before.points ==> other != id && id in Step(before, e).waiters;
    case Stop(other) => WithoutMembers(before.waiters, other);
    case Reset(other, _) => WithoutMembers(before.waiters, other);
    case Receive(_) =>
    case Advance(d) => TickerAdvance(w, before, d, id);
  }

  /** A ticker never falls out of step: whatever is registered, stopped, set anew, read and advanced meanwhile, until it
      is stopped itself it waits, its deadline is after now, and lies whole periods from its first one. */
  lemma {:induction false} TickerInStep<Id>(w: World<Id>, es: seq<Event<Id>>, id: Id)
    requires WellFormed(w) && id in w.waiters && w.points[id].period > 0 && w.points[id].deadline > w.now
    requires forall e :: e in es ==> e != Stop(id) && !(e.Reset? && e.id == id)
    ensures InStepWith(Run(w, es), w, id)
  {
    if es == [] {
      InStepRefl(w.points[id].deadline, w.points[id].period);
    } else {
      var front, last := es[..|es| - 1], es[|es| - 1];
      assert last in es && forall e :: e in front ==> e in es;
      TickerInStep(w, front, id);
      TickerStep(w, Run(w, front), last, id);
    }
  }

  /** A point that was stopped stays off the list and keeps its channel as it is until it is read, unless it is set anew. */
  lemma {:induction false} StoppedStaysSilent<Id>(w: World<Id>, es: seq<Event<Id>>, id: Id)
    requires WellFormed(w) && id in w.points && id !in w.waiters
    requires forall e :: e in es ==> !(e.Reset? && e.id == id)
    ensures var after := Run(w, es);
      && id in after.points && id !in after.waiters
      && (after.points[id] == w.points[id] || after.points[id] == w.points[id].(ch := Empty))
  {
    if es != [] {
      var front, last := es[..|es| - 1], es[|es| - 1];
      assert last in es && forall e :: e in front ==> e in es;
      StoppedStaysSilent(w, front, id);
      var before := Run(w, front);
      match last
      case Register(_, _, _) =>
      case Stop(other) => WithoutMembers(before.waiters, other);
      case Reset(other, _) => WithoutMembers(before.waiters, other);
      case Receive(_) =>
      case Advance(d) => RemainingFits(before.waiters, before.points, before.now + d);
    }
  }

  // ----- Firing -----

  /** What an advance does to one point: it fires if it waits and has come due, whoever reads its channel next finds the
      first tick not yet read, a timer then waits no more, and a ticker waits for its first later deadline. */
  lemma FiringExact<Id>(w: World<Id>, d: int, id: Id)
    requires WellFormed(w) && id in w.points
    ensures var after, p := Advanced(w, d), w.points[id];
      var q, fires := after.points[id], id in w.waiters && p.deadline <= w.now + d;
      && after.now == w.now + d
      && (!fires ==> q == p)
      && (fires ==> q.period == p.period && q.ch == if p.ch.Full? then p.ch else Full(w.now + d))
      && (id in after.waiters <==> id in w.waiters && (!fires || p.period > 0))
      && (fires && p.period > 0 ==>
            q.deadline > w.now + d && q.deadline - p.period <= w.now + d && InStep(q.deadline, p.deadline, p.period))
  {
    var p, now := w.points[id], w.now + d;
    RemainingFits(w.waiters, w.points, now);
    if id in w.waiters && Due(p, now) && p.period > 0 {
      NextInStep(p.deadline + p.period, p.period, now);
      InStepFurther(NextDeadline(p.deadline + p.period, p.period, now), p.deadline, p.period);
    }
  }

  ghost predicate Ahead<Id>(s: seq<Id>, a: Id, b: Id)
  {
    exists i, j :: 0 <= i < j < |s| && s[i] == a && s[j] == b
  }

  /** Those that wait on keep their order. */
  lemma {:induction false} OrderKept<Id>(waiters: seq<Id>, points: map<Id, Point>, now: int, a: Id, b: Id)
    requires Backed(waiters, points) && Ahead(Remaining(waiters, points, now), a, b)
    ensures Ahead(waiters, a, b)
  {
    var n, front := |waiters| - 1, waiters[..|waiters| - 1];
    var kept := Remaining(front, points, now);
    RemainingFits(front, points, now);
    if Ahead(kept, a, b) {
      OrderKept(front, points, now, a, b);
      var i, j :| 0 <= i < j < |front| && front[i] == a && front[j] == b;
      assert waiters[i] == a && waiters[j] == b;
    } else {
      var i, j :| 0 <= i < j < |Remaining(waiters, points, now)| && Remaining(waiters, points, now)[i] == a && Remaining(waiters, points, now)[j] == b;
      assert i < |kept| && kept[i] == a;
      assert a in front;
      var k :| 0 <= k < |front| && front[k] == a;
      assert waiters[k] == a && waiters[n] == b;
    }
  }

  predicate LeavesAlone<Id(==)>(es: seq<Event<Id>>, id: Id)
  {
    forall e :: e in es ==> e != Stop(id) && e != Event.Receive(id) && !(e.Reset? && e.id == id)
  }

  ghost predicate OnTime<Id>(w: World<Id>, id: Id, deadline: int)
  {
    && WellFormed(w) && id in w.points
    && w.points[id].period <= 0 && w.points[id].deadline == deadline
    && (id in w.waiters <==> w.now < deadline)
    && (w.points[id].ch.Full? <==> w.now >= deadline)
    && (w.points[id].ch.Full? ==> w.points[id].ch.at >= deadline)
  }

  lemma OnTimeStep<Id>(w: World<Id>, e: Event<Id>, id: Id, deadline: int)
    requires OnTime(w, id, deadline) && e != Stop(id) && e != Event.Receive(id) && !(e.Reset? && e.id == id)
    ensures OnTime(Step(w, e), id, deadline)
  {
    StepWellFormed(w, e);
    match e
    case Register(other, _, _) =>
    case Stop(other) => WithoutMembers(w.waiters, other);
    case Reset(other, _) => WithoutMembers(w.waiters, other);
    case Receive(_) =>
    case Advance(d) => FiringExact(w, d, id);
  }

  /** Main result: a timer fires when its time has come, neither earlier nor later, and once: whatever happens to other points
      meanwhile, it waits exactly until its deadline and its channel holds a tick exactly from then on. */
  lemma {:induction false} TimerFiresOnTime<Id>(w: World<Id>, es: seq<Event<Id>>, id: Id)
    requires WellFormed(w) && id in w.waiters && w.points[id].period <= 0 && w.points[id].ch == Empty
    requires w.points[id].deadline > w.now && LeavesAlone(es, id)
    ensures OnTime(Run(w, es), id, w.points[id].deadline)
  {
    if es != [] {
      var front, last := es[..|es| - 1], es[|es| - 1];
      assert last in es && forall e :: e in front ==> e in es;
      TimerFiresOnTime(w, front, id);
      OnTimeStep(Run(w, front), last, id, w.points[id].deadline);
    }
  }
}
