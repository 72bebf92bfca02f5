// One Chrome per stage: who launches it, who closes it and who may attach to it.
module ChromeSessions {
  import opened Options

  // How far the goroutine inside `once` has come. `Launched` and `Refused` hold the Chrome that
  // the launcher itself still owns; from `Attached` on the session's `conn` holds it.
  datatype Launch =
    | NotStarted
    | Launching
    | Launched(chrome: nat)
    | Refused(chrome: nat)
    | Attached
    | Ready
    | Failed

  // How far the goroutine inside `closeOnce` has come, with the connection it took under `mu`.
  datatype Closer =
    | NotClosing
    | Signalling(taken: Option<nat>)
    | Evicting(taken: Option<nat>)
    | Detaching(taken: Option<nat>)
    | Killing(taken: Option<nat>)
    | Finished(taken: Option<nat>)

  datatype SessionState = SessionState(
    key: string,
    launch: Launch,
    conn: Option<nat>,
    closed: bool,
    done: bool,
    closer: Closer,
    clients: set<nat>,
    clientsClosed: bool)

  // A WebSocket client between its upgrade and the end of its handler.
  datatype Phase = Waiting(session: nat) | Admitted(session: nat) | Serving(session: nat) | Parting | Gone

  datatype Client = Client(phase: Phase, open: bool)

  // A Chrome process, the session it was launched for and how often it was closed.
  datatype Chrome = Chrome(session: nat, closes: nat)

  // The manager's own `Close`: the sessions it took and the one it is waiting for.
  datatype Sweep = NotYet | Sweeping(todo: set<nat>, current: Option<nat>) | Returned

  datatype World = World(
    closed: bool,
    table: map<string, nat>,
    sweep: Sweep,
    sessions: seq<SessionState>,
    clients: seq<Client>,
    chromes: seq<Chrome>)

  function Start(): World {
    World(false, map[], NotYet, [], [], [])
  }

  // ---------------------------------------------------------------------
  // The critical sections, on values
  // ---------------------------------------------------------------------

  function NewSession(key: string): SessionState {
    SessionState(key, NotStarted, None, false, false, NotClosing, {}, false)
  }

  // The launcher hands its Chrome over, unless the session was closed meanwhile.
  function HandedOff(s: SessionState, chrome: nat): SessionState {
    if s.closed then s.(launch := Refused(chrome)) else s.(conn := Some(chrome), launch := Attached)
  }

  function TakenForClosing(s: SessionState): SessionState {
    s.(closed := true, closer := Signalling(s.conn))
  }

  // Removes `s` from the table only if it is still the session mapped to `key`.
  function Evicted<S(==)>(table: map<string, S>, key: string, s: S): map<string, S> {
    if key in table && table[key] == s then table - {key} else table
  }

  function Registered(s: SessionState, client: nat): SessionState {
    if s.clientsClosed then s else s.(clients := s.clients + {client})
  }

  function Detached(s: SessionState): SessionState {
    s.(clientsClosed := true)
  }

  function WithClosedSockets(clients: seq<Client>, ids: set<nat>): (r: seq<Client>)
    ensures |r| == |clients|
    ensures forall c :: 0 <= c < |clients| ==> r[c] == (if c in ids then clients[c].(open := false) else clients[c])
  {
    seq(|clients|, c requires 0 <= c < |clients| => if c in ids then clients[c].(open := false) else clients[c])
  }

  // ---------------------------------------------------------------------
  // One step of any goroutine
  // ---------------------------------------------------------------------

  datatype Event =
    | Connect(key: string)
    | StartLaunch(s: nat)
    | LaunchFails(s: nat)
    | LaunchReturns(s: nat)
    | HandOff(s: nat)
    | KillRefused(s: nat)
    | Announce(s: nat)
    | Admit(c: nat)
    | TurnAway(c: nat)
    | GiveUp(c: nat)
    | Register(c: nat)
    | Leave(c: nat)
    | CloseSocket(c: nat)
    | BeginClose(s: nat)
    | Signal(s: nat)
    | Evict(s: nat)
    | Detach(s: nat)
    | Kill(s: nat)
    | CloseManager
    | SweepTake(s: nat)
    | SweepNext
    | SweepReturn

  function With(w: World, i: nat, s: SessionState): World
    requires i < |w.sessions|
  {
    w.(sessions := w.sessions[i := s])
  }

  function WithPhase(w: World, c: nat, phase: Phase): World
    requires c < |w.clients|
  {
    w.(clients := w.clients[c := w.clients[c].(phase := phase)])
  }

  function ClosedChrome(w: World, c: nat): World {
    if c < |w.chromes| then w.(chromes := w.chromes[c := w.chromes[c].(closes := w.chromes[c].closes + 1)]) else w
  }

  // A connecting client is refused by a closed manager, or waits on the mapped session,
  // which it creates when there is none.
  function Connected(w: World, key: string): World {
    if w.closed then
      w.(clients := w.clients + [Client(Parting, true)])
    else if key in w.table then
      w.(clients := w.clients + [Client(Waiting(w.table[key]), true)])
    else
      w.(table := w.table[key := |w.sessions|],
         sessions := w.sessions + [NewSession(key)],
         clients := w.clients + [Client(Waiting(|w.sessions|), true)])
  }

  function LaunchStep(w: World, e: Event): World
    requires e.StartLaunch? || e.LaunchFails? || e.LaunchReturns? || e.HandOff? || e.KillRefused? || e.Announce?
    requires e.s < |w.sessions|
  {
    var s := w.sessions[e.s];
    match e
    case StartLaunch(i) => if s.launch == NotStarted then With(w, i, s.(launch := Launching)) else w
    case LaunchFails(i) => if s.launch == Launching then With(w, i, s.(launch := Failed)) else w
    case LaunchReturns(i) =>
      if s.launch == Launching
      then With(w, i, s.(launch := Launched(|w.chromes|))).(chromes := w.chromes + [Chrome(i, 0)])
      else w
    case HandOff(i) => if s.launch.Launched? then With(w, i, HandedOff(s, s.launch.chrome)) else w
    case KillRefused(i) =>
      if s.launch.Refused? then ClosedChrome(With(w, i, s.(launch := Failed)), s.launch.chrome) else w
    case Announce(i) => if s.launch == Attached then With(w, i, s.(launch := Ready)) else w
  }

  function ClientStep(w: World, e: Event): World
    requires e.Admit? || e.TurnAway? || e.GiveUp? || e.Register? || e.Leave? || e.CloseSocket?
    requires e.c < |w.clients|
  {
    var phase := w.clients[e.c].phase;
    if e.CloseSocket? then
      if phase == Parting then w.(clients := w.clients[e.c := Client(Gone, false)]) else w
    else if phase.Parting? || phase.Gone? || phase.session >= |w.sessions| then
      w
    else
      var i := phase.session;
      var s := w.sessions[i];
      match e
      case Admit(c) => if phase.Waiting? && s.launch == Ready then WithPhase(w, c, Admitted(i)) else w
      case TurnAway(c) =>
        if phase.Waiting? && s.launch == Failed
        then WithPhase(w, c, Parting).(table := Evicted(w.table, s.key, i))
        else w
      case GiveUp(c) => if phase.Waiting? then WithPhase(w, c, Parting) else w
      case Register(c) =>
        if phase.Admitted?
        then WithPhase(With(w, i, Registered(s, c)), c, if s.clientsClosed then Parting else Serving(i))
        else w
      case Leave(c) =>
        if phase.Serving? then WithPhase(With(w, i, s.(clients := s.clients - {c})), c, Parting) else w
      case _ => w
  }

  function CloserStep(w: World, e: Event): World
    requires e.BeginClose? || e.Signal? || e.Evict? || e.Detach? || e.Kill?
    requires e.s < |w.sessions|
  {
    var s := w.sessions[e.s];
    match e
    case BeginClose(i) =>
      // The pipe loops, which close a session whose Chrome is gone, start after the handoff.
      if s.closer == NotClosing && (s.launch == Attached || s.launch == Ready)
      then With(w, i, TakenForClosing(s))
      else w
    case Signal(i) =>
      if s.closer.Signalling? then With(w, i, s.(done := true, closer := Evicting(s.closer.taken))) else w
    case Evict(i) =>
      if s.closer.Evicting?
      then With(w, i, s.(closer := Detaching(s.closer.taken))).(table := Evicted(w.table, s.key, i))
      else w
    case Detach(i) =>
      if s.closer.Detaching?
      then With(w, i, Detached(s).(closer := Killing(s.closer.taken)))
        .(clients := WithClosedSockets(w.clients, s.clients))
      else w
    case Kill(i) =>
      if s.closer.Killing? then
        var next := With(w, i, s.(closer := Finished(s.closer.taken)));
        if s.closer.taken.Some? then ClosedChrome(next, s.closer.taken.value) else next
      else w
  }

  function SweepStep(w: World, e: Event): World
    requires e.CloseManager? || e.SweepTake? || e.SweepNext? || e.SweepReturn?
  {
    match e
    case CloseManager =>
      if w.closed then w else w.(closed := true, sweep := Sweeping(w.table.Values, None), table := map[])
    case SweepTake(i) =>
      // The launch was announced, or the time allowed for waiting ran out.
      if w.sweep.Sweeping? && w.sweep.current == None && i in w.sweep.todo && i < |w.sessions| then
        var next := w.(sweep := w.sweep.(current := Some(i)));
        if w.sessions[i].closer == NotClosing then With(next, i, TakenForClosing(w.sessions[i])) else next
      else w
    case SweepNext =>
      if w.sweep.Sweeping? && w.sweep.current.Some? && w.sweep.current.value < |w.sessions|
         && w.sessions[w.sweep.current.value].closer.Finished?
      then w.(sweep := Sweeping(w.sweep.todo - {w.sweep.current.value}, None))
      else w
    case SweepReturn =>
      if w.sweep.Sweeping? && w.sweep.todo == {} then w.(sweep := Returned) else w
  }

  // A step that is not possible leaves the world as it is.
  function Next(w: World, e: Event): World {
    match e
    case Connect(key) => Connected(w, key)
    case StartLaunch(s) => if s < |w.sessions| then LaunchStep(w, e) else w
    case LaunchFails(s) => if s < |w.sessions| then LaunchStep(w, e) else w
    case LaunchReturns(s) => if s < |w.sessions| then LaunchStep(w, e) else w
    case HandOff(s) => if s < |w.sessions| then LaunchStep(w, e) else w
    case KillRefused(s) => if s < |w.sessions| then LaunchStep(w, e) else w
    case Announce(s) => if s < |w.sessions| then LaunchStep(w, e) else w
    case Admit(c) => if c < |w.clients| then ClientStep(w, e) else w
    case TurnAway(c) => if c < |w.clients| then ClientStep(w, e) else w
    case GiveUp(c) => if c < |w.clients| then ClientStep(w, e) else w
    case Register(c) => if c < |w.clients| then ClientStep(w, e) else w
    case Leave(c) => if c < |w.clients| then ClientStep(w, e) else w
    case CloseSocket(c) => if c < |w.clients| then ClientStep(w, e) else w
    case BeginClose(s) => if s < |w.sessions| then CloserStep(w, e) else w
    case Signal(s) => if s < |w.sessions| then CloserStep(w, e) else w
    case Evict(s) => if s < |w.sessions| then CloserStep(w, e) else w
    case Detach(s) => if s < |w.sessions| then CloserStep(w, e) else w
    case Kill(s) => if s < |w.sessions| then CloserStep(w, e) else w
    case CloseManager => SweepStep(w, e)
    case SweepTake(s) => SweepStep(w, e)
    case SweepNext => SweepStep(w, e)
    case SweepReturn => SweepStep(w, e)
  }

  function Run(es: seq<Event>): World {
    if es == [] then Start() else Next(Run(es[..|es| - 1]), es[|es| - 1])
  }

  // ---------------------------------------------------------------------
  // What every interleaving keeps
  // ---------------------------------------------------------------------

  // `s` is answerable for closing Chrome `c`: as its launcher, or as the session it was handed to.
  predicate Holds(s: SessionState, c: nat) {
    s.launch == Launched(c) || s.launch == Refused(c) || (s.conn == Some(c) && !s.closer.Finished?)
  }

  // The launcher holds no Chrome of its own.
  predicate Through(l: Launch) {
    !l.Launched? && !l.Refused?
  }

  predicate Live(s: SessionState) {
    s.launch != Failed && !s.closed
  }

  predicate SessionOk(s: SessionState) {
    && (s.closed <==> s.closer != NotClosing)
    && (s.done <==> s.closer != NotClosing && !s.closer.Signalling?)
    && (s.clientsClosed <==> s.closer.Killing? || s.closer.Finished?)
    && (s.conn.Some? <==> s.launch == Attached || s.launch == Ready)
    && (s.closer != NotClosing ==> s.closer.taken == s.conn)
    && (s.launch.Refused? ==> s.closed)
  }

  predicate Listed(w: World, i: nat) {
    i < |w.sessions| && w.sessions[i].key in w.table && w.table[w.sessions[i].key] == i
  }

  predicate PastEviction(s: SessionState) {
    s.closer.Detaching? || s.closer.Killing? || s.closer.Finished?
  }

  predicate PlaceOk(w: World, i: nat)
    requires i < |w.sessions|
  {
    && (PastEviction(w.sessions[i]) ==> !Listed(w, i))
    && (Live(w.sessions[i]) ==> Listed(w, i) || (w.sweep.Sweeping? && i in w.sweep.todo))
  }

  predicate TableOk(w: World) {
    && (forall k :: k in w.table ==> w.table[k] < |w.sessions| && w.sessions[w.table[k]].key == k)
    && (w.closed ==> w.table == map[])
    && (w.closed <==> w.sweep != NotYet)
  }

  predicate SweepOk(w: World) {
    w.sweep.Sweeping? ==>
      && (forall i :: i in w.sweep.todo ==> i < |w.sessions|)
      && (w.sweep.current.Some? ==> w.sweep.current.value in w.sweep.todo && w.sessions[w.sweep.current.value].closed)
  }

  predicate Mine(w: World, i: nat, c: nat) {
    c < |w.chromes| && w.chromes[c].session == i
  }

  predicate HeldKnown(w: World, i: nat)
    requires i < |w.sessions|
  {
    && (w.sessions[i].launch.Launched? || w.sessions[i].launch.Refused? ==> Mine(w, i, w.sessions[i].launch.chrome))
    && (w.sessions[i].conn.Some? ==> Mine(w, i, w.sessions[i].conn.value))
  }

  // A Chrome is either owned and open, or closed exactly once, for a session that was closed.
  predicate ChromeOk(w: World, c: nat)
    requires c < |w.chromes|
  {
    var x := w.chromes[c];
    && x.session < |w.sessions|
    && x.closes == (if Holds(w.sessions[x.session], c) then 0 else 1)
    && (x.closes == 1 ==> w.sessions[x.session].closed)
  }

  predicate ClientOk(w: World, c: nat)
    requires c < |w.clients|
  {
    match w.clients[c].phase
    case Waiting(i) => i < |w.sessions|
    case Admitted(i) => i < |w.sessions| && w.sessions[i].launch == Ready
    case Serving(i) => i < |w.sessions| && c in w.sessions[i].clients && (w.sessions[i].clientsClosed ==> !w.clients[c].open)
    case Parting => true
    case Gone => !w.clients[c].open
  }

  predicate RosterOk(w: World, i: nat)
    requires i < |w.sessions|
  {
    forall c :: c in w.sessions[i].clients ==> c < |w.clients| && w.clients[c].phase == Serving(i)
  }

  predicate OneLivePerKey(w: World) {
    forall i, j :: 0 <= i < j < |w.sessions| && w.sessions[i].key == w.sessions[j].key ==>
      !(Live(w.sessions[i]) && Live(w.sessions[j]))
  }

  // Who is in the table, and how far each session has come.
  predicate SessionsOk(w: World) {
    && TableOk(w)
    && SweepOk(w)
    && (forall i :: 0 <= i < |w.sessions| ==> SessionOk(w.sessions[i]))
    && (forall i :: 0 <= i < |w.sessions| ==> PlaceOk(w, i))
    && OneLivePerKey(w)
  }

  predicate ChromesOk(w: World) {
    && (forall i :: 0 <= i < |w.sessions| ==> HeldKnown(w, i))
    && (forall c :: 0 <= c < |w.chromes| ==> ChromeOk(w, c))
  }

  predicate ClientsOk(w: World) {
    && (forall c :: 0 <= c < |w.clients| ==> ClientOk(w, c))
    && (forall i :: 0 <= i < |w.sessions| ==> RosterOk(w, i))
  }

  predicate Inv(w: World) {
    SessionsOk(w) && ChromesOk(w) && ClientsOk(w)
  }

  lemma ConnectKeeps(w: World, key: string)
    requires Inv(w)
    ensures Inv(Connected(w, key))
  {
    var v := Connected(w, key);
    if !w.closed && key !in w.table {
      forall i | 0 <= i < |w.sessions| && Live(w.sessions[i])
        ensures w.sessions[i].key != key
      {
        assert PlaceOk(w, i);
      }
    }
    forall i | 0 <= i < |v.sessions| ensures PlaceOk(v, i) && HeldKnown(v, i) && RosterOk(v, i) {
      if i < |w.sessions| {
        assert PlaceOk(w, i) && HeldKnown(w, i) && RosterOk(w, i);
      }
    }
    forall c | 0 <= c < |w.chromes| ensures ChromeOk(v, c) {
      assert ChromeOk(w, c);
    }
    forall c | 0 <= c < |v.clients| ensures ClientOk(v, c) {
      if c < |w.clients| {
        assert ClientOk(w, c);
      }
    }
  }

  // A session that moves on in place, neither coming to life nor leaving the table.
  predicate Advances(s: SessionState, t: SessionState) {
    && t.key == s.key && SessionOk(t)
    && (Live(t) ==> Live(s))
    && (PastEviction(t) ==> PastEviction(s))
    && (s.closed ==> t.closed)
  }

  lemma ReplacedKeepsSessions(w: World, v: World, i: nat)
    requires SessionsOk(w)
    requires i < |w.sessions| && |v.sessions| == |w.sessions| && v.sessions == w.sessions[i := v.sessions[i]]
    requires Advances(w.sessions[i], v.sessions[i])
    requires v.table == w.table && v.sweep == w.sweep && v.closed == w.closed
    ensures SessionsOk(v)
  {
    forall j | 0 <= j < |v.sessions| ensures PlaceOk(v, j) {
      assert PlaceOk(w, j);
    }
  }

  lemma LaunchKeepsSessions(w: World, e: Event)
    requires Inv(w)
    requires e.StartLaunch? || e.LaunchFails? || e.LaunchReturns? || e.HandOff? || e.KillRefused? || e.Announce?
    requires e.s < |w.sessions|
    ensures SessionsOk(LaunchStep(w, e))
  {
    assert SessionOk(w.sessions[e.s]);
    LaunchAdvances(w, e);
    ReplacedKeepsSessions(w, LaunchStep(w, e), e.s);
  }

  lemma LaunchAdvances(w: World, e: Event)
    requires e.StartLaunch? || e.LaunchFails? || e.LaunchReturns? || e.HandOff? || e.KillRefused? || e.Announce?
    requires e.s < |w.sessions| && SessionOk(w.sessions[e.s])
    ensures var v := LaunchStep(w, e);
      && |v.sessions| == |w.sessions| && v.sessions == w.sessions[e.s := v.sessions[e.s]]
      && v.table == w.table && v.sweep == w.sweep && v.closed == w.closed
      && Advances(w.sessions[e.s], v.sessions[e.s])
  {
  }

  lemma LaunchKeepsChromes(w: World, e: Event)
    requires Inv(w)
    requires e.StartLaunch? || e.LaunchFails? || e.LaunchReturns? || e.HandOff? || e.KillRefused? || e.Announce?
    requires e.s < |w.sessions|
    ensures ChromesOk(LaunchStep(w, e))
  {
    assert SessionOk(w.sessions[e.s]) && HeldKnown(w, e.s);
    if e.LaunchReturns? {
      ReturnKeepsChromes(w, e.s);
    } else {
      var v := LaunchStep(w, e);
      forall i | 0 <= i < |v.sessions| ensures HeldKnown(v, i) {
        assert HeldKnown(w, i);
      }
      forall c | 0 <= c < |v.chromes| ensures ChromeOk(v, c) {
        LaunchKeepsChrome(w, e, c);
      }
    }
  }

  lemma LaunchKeepsChrome(w: World, e: Event, c: nat)
    requires Inv(w) && c < |w.chromes|
    requires e.StartLaunch? || e.LaunchFails? || e.HandOff? || e.KillRefused? || e.Announce?
    requires e.s < |w.sessions|
    ensures c < |LaunchStep(w, e).chromes| && ChromeOk(LaunchStep(w, e), c)
  {
    assert ChromeOk(w, c) && SessionOk(w.sessions[e.s]) && HeldKnown(w, e.s);
  }

  lemma ReturnKeepsChromes(w: World, s: nat)
    requires Inv(w) && s < |w.sessions|
    ensures ChromesOk(LaunchStep(w, LaunchReturns(s)))
  {
    var v := LaunchStep(w, LaunchReturns(s));
    assert SessionOk(w.sessions[s]);
    forall i | 0 <= i < |v.sessions| ensures HeldKnown(v, i) {
      assert HeldKnown(w, i);
    }
    forall c | 0 <= c < |v.chromes| ensures ChromeOk(v, c) {
      if c < |w.chromes| {
        assert ChromeOk(w, c);
      }
    }
  }

  lemma LaunchKeepsClients(w: World, e: Event)
    requires Inv(w)
    requires e.StartLaunch? || e.LaunchFails? || e.LaunchReturns? || e.HandOff? || e.KillRefused? || e.Announce?
    requires e.s < |w.sessions|
    ensures ClientsOk(LaunchStep(w, e))
  {
    var v := LaunchStep(w, e);
    assert SessionOk(w.sessions[e.s]);
    forall i | 0 <= i < |v.sessions| ensures RosterOk(v, i) {
      assert SessionOk(w.sessions[i]) && RosterOk(w, i);
    }
    forall c | 0 <= c < |v.clients| ensures ClientOk(v, c) {
      assert ClientOk(w, c);
    }
  }

  lemma ClientKeepsSessions(w: World, e: Event)
    requires Inv(w)
    requires e.Admit? || e.TurnAway? || e.GiveUp? || e.Register? || e.Leave? || e.CloseSocket?
    requires e.c < |w.clients|
    ensures SessionsOk(ClientStep(w, e))
  {
    var v := ClientStep(w, e);
    assert ClientOk(w, e.c);
    forall i | 0 <= i < |v.sessions| ensures PlaceOk(v, i) {
      assert SessionOk(w.sessions[i]) && PlaceOk(w, i);
    }
  }

  lemma ClientKeepsChromes(w: World, e: Event)
    requires Inv(w)
    requires e.Admit? || e.TurnAway? || e.GiveUp? || e.Register? || e.Leave? || e.CloseSocket?
    requires e.c < |w.clients|
    ensures ChromesOk(ClientStep(w, e))
  {
    var v := ClientStep(w, e);
    forall i | 0 <= i < |v.sessions| ensures HeldKnown(v, i) {
      assert SessionOk(w.sessions[i]) && HeldKnown(w, i);
    }
    forall c | 0 <= c < |v.chromes| ensures ChromeOk(v, c) {
      if c < |w.chromes| {
        assert ChromeOk(w, c);
      }
    }
  }

  lemma ClientKeepsClients(w: World, e: Event)
    requires Inv(w)
    requires e.Admit? || e.TurnAway? || e.GiveUp? || e.Register? || e.Leave? || e.CloseSocket?
    requires e.c < |w.clients|
    ensures ClientsOk(ClientStep(w, e))
  {
    var v := ClientStep(w, e);
    assert ClientOk(w, e.c);
    forall i | 0 <= i < |v.sessions| ensures RosterOk(v, i) {
      assert SessionOk(w.sessions[i]) && RosterOk(w, i);
    }
    forall c | 0 <= c < |v.clients| ensures ClientOk(v, c) {
      assert ClientOk(w, c);
    }
  }

  lemma EvictKeepsSessions(w: World, i: nat)
    requires SessionsOk(w) && i < |w.sessions|
    ensures SessionsOk(CloserStep(w, Evict(i)))
  {
    var s := w.sessions[i];
    if s.closer.Evicting? {
      var v := CloserStep(w, Evict(i));
      assert SessionOk(s);
      forall j | 0 <= j < |v.sessions| && j != i ensures PlaceOk(v, j) {
        assert PlaceOk(w, j);
        assert v.sessions[j] == w.sessions[j];
      }
      assert PlaceOk(v, i);
    }
  }

  lemma CloserKeepsSessions(w: World, e: Event)
    requires Inv(w)
    requires e.BeginClose? || e.Signal? || e.Evict? || e.Detach? || e.Kill?
    requires e.s < |w.sessions|
    ensures SessionsOk(CloserStep(w, e))
  {
    assert SessionOk(w.sessions[e.s]);
    if e.Evict? {
      EvictKeepsSessions(w, e.s);
    } else {
      ReplacedKeepsSessions(w, CloserStep(w, e), e.s);
    }
  }

  lemma CloserKeepsChromes(w: World, e: Event)
    requires Inv(w)
    requires e.BeginClose? || e.Signal? || e.Evict? || e.Detach? || e.Kill?
    requires e.s < |w.sessions|
    ensures ChromesOk(CloserStep(w, e))
  {
    var v := CloserStep(w, e);
    assert SessionOk(w.sessions[e.s]) && HeldKnown(w, e.s);
    forall i | 0 <= i < |v.sessions| ensures HeldKnown(v, i) {
      assert HeldKnown(w, i);
    }
    forall c | 0 <= c < |v.chromes| ensures ChromeOk(v, c) {
      CloserKeepsChrome(w, e, c);
    }
  }

  lemma CloserKeepsChrome(w: World, e: Event, c: nat)
    requires Inv(w) && c < |w.chromes|
    requires e.BeginClose? || e.Signal? || e.Evict? || e.Detach? || e.Kill?
    requires e.s < |w.sessions|
    ensures c < |CloserStep(w, e).chromes| && ChromeOk(CloserStep(w, e), c)
  {
    assert ChromeOk(w, c) && SessionOk(w.sessions[e.s]) && HeldKnown(w, e.s);
  }

  lemma CloserKeepsClients(w: World, e: Event)
    requires Inv(w)
    requires e.BeginClose? || e.Signal? || e.Evict? || e.Detach? || e.Kill?
    requires e.s < |w.sessions|
    ensures ClientsOk(CloserStep(w, e))
  {
    var v := CloserStep(w, e);
    assert SessionOk(w.sessions[e.s]);
    forall i | 0 <= i < |v.sessions| ensures RosterOk(v, i) {
      assert SessionOk(w.sessions[i]) && RosterOk(w, i);
    }
    forall c | 0 <= c < |v.clients| ensures ClientOk(v, c) {
      assert ClientOk(w, c);
    }
  }

  lemma SweepKeepsSessions(w: World, e: Event)
    requires Inv(w)
    requires e.CloseManager? || e.SweepTake? || e.SweepNext? || e.SweepReturn?
    ensures SessionsOk(SweepStep(w, e))
  {
    var v := SweepStep(w, e);
    forall i | 0 <= i < |v.sessions| ensures PlaceOk(v, i) {
      assert SessionOk(w.sessions[i]) && PlaceOk(w, i);
    }
  }

  lemma SweepKeepsChromes(w: World, e: Event)
    requires Inv(w)
    requires e.CloseManager? || e.SweepTake? || e.SweepNext? || e.SweepReturn?
    ensures ChromesOk(SweepStep(w, e))
  {
    var v := SweepStep(w, e);
    forall i | 0 <= i < |v.sessions| ensures HeldKnown(v, i) {
      assert SessionOk(w.sessions[i]) && HeldKnown(w, i);
    }
    forall c | 0 <= c < |v.chromes| ensures ChromeOk(v, c) {
      if c < |w.chromes| {
        assert ChromeOk(w, c);
      }
    }
  }

  lemma SweepKeepsClients(w: World, e: Event)
    requires Inv(w)
    requires e.CloseManager? || e.SweepTake? || e.SweepNext? || e.SweepReturn?
    ensures ClientsOk(SweepStep(w, e))
  {
    var v := SweepStep(w, e);
    forall i | 0 <= i < |v.sessions| ensures RosterOk(v, i) {
      assert SessionOk(w.sessions[i]) && RosterOk(w, i);
    }
    forall c | 0 <= c < |v.clients| ensures ClientOk(v, c) {
      assert ClientOk(w, c);
    }
  }

  lemma StepKeeps(w: World, e: Event)
    requires Inv(w)
    ensures Inv(Next(w, e))
  {
    if e.Connect? {
      ConnectKeeps(w, e.key);
    } else if e.CloseManager? || e.SweepTake? || e.SweepNext? || e.SweepReturn? {
      SweepKeepsSessions(w, e); SweepKeepsChromes(w, e); SweepKeepsClients(w, e);
    } else if e.Admit? || e.TurnAway? || e.GiveUp? || e.Register? || e.Leave? || e.CloseSocket? {
      if e.c < |w.clients| { ClientKeepsSessions(w, e); ClientKeepsChromes(w, e); ClientKeepsClients(w, e); }
    } else if e.BeginClose? || e.Signal? || e.Evict? || e.Detach? || e.Kill? {
      if e.s < |w.sessions| { CloserKeepsSessions(w, e); CloserKeepsChromes(w, e); CloserKeepsClients(w, e); }
    } else {
      if e.s < |w.sessions| { LaunchKeepsSessions(w, e); LaunchKeepsChromes(w, e); LaunchKeepsClients(w, e); }
    }
  }

  lemma {:induction false} RunKeeps(es: seq<Event>)
    ensures Inv(Run(es))
  {
    if es != [] {
      RunKeeps(es[..|es| - 1]);
      StepKeeps(Run(es[..|es| - 1]), es[|es| - 1]);
    }
  }

  // ---------------------------------------------------------------------
  // Ownership of Chromes
  // ---------------------------------------------------------------------

  // In every run: no Chrome is closed twice, an open one is held by its own session and by no
  // other, a Chrome of a session still open is open, and once the launcher and the closer of a
  // closed session are through, its Chrome was closed exactly once.
  lemma ClosedExactlyOnce(es: seq<Event>, c: nat)
    requires c < |Run(es).chromes|
    ensures var w := Run(es); var x := w.chromes[c];
      && x.closes <= 1
      && x.session < |w.sessions|
      && (forall i :: 0 <= i < |w.sessions| && Holds(w.sessions[i], c) ==> i == x.session)
      && (x.closes == 0 <==> Holds(w.sessions[x.session], c))
      && (!w.sessions[x.session].closed ==> x.closes == 0)
      && (w.sessions[x.session].closer.Finished? && Through(w.sessions[x.session].launch) ==> x.closes == 1)
  {
    RunKeeps(es);
    var w := Run(es);
    assert ChromeOk(w, c);
    forall i | 0 <= i < |w.sessions| && Holds(w.sessions[i], c) ensures i == w.chromes[c].session {
      assert HeldKnown(w, i);
    }
  }

  // Who closes a Chrome: its launcher when the session was closed before the handoff, and
  // otherwise the closer of the session it was handed to; nobody else, and never for a session
  // that is still open.
  lemma ClosedByItsOwner(w: World, e: Event, c: nat)
    requires Inv(w)
    requires c < |w.chromes| && Next(w, e).chromes[c].closes != w.chromes[c].closes
    ensures w.chromes[c].session < |w.sessions|
    ensures var i := w.chromes[c].session; var s := w.sessions[i];
      && s.closed
      && w.chromes[c].closes == 0
      && (if s.launch.Refused? then e == KillRefused(i) && s.conn == None && s.launch.chrome == c
          else e == Kill(i) && s.conn == Some(c) && s.closer == Killing(Some(c)))
  {
    assert ChromeOk(w, c);
    if !e.KillRefused? && !e.Kill? {
      OthersCloseNothing(w, e, c);
    } else if e.s < |w.sessions| {
      assert HeldKnown(w, e.s) && SessionOk(w.sessions[e.s]);
    }
  }

  lemma OthersCloseNothing(w: World, e: Event, c: nat)
    requires c < |w.chromes| && !e.KillRefused? && !e.Kill?
    ensures c < |Next(w, e).chromes| && Next(w, e).chromes[c] == w.chromes[c]
  {
  }

  // When the manager's Close has returned and no launch or teardown is under way, every Chrome
  // ever launched has been closed, once.
  lemma NothingLeaksAfterClose(es: seq<Event>)
    requires Run(es).sweep == Returned
    requires forall i :: 0 <= i < |Run(es).sessions| ==>
      Through(Run(es).sessions[i].launch) && (Run(es).sessions[i].closer == NotClosing || Run(es).sessions[i].closer.Finished?)
    ensures forall c :: 0 <= c < |Run(es).chromes| ==> Run(es).chromes[c].closes == 1
  {
    RunKeeps(es);
    var w := Run(es);
    forall c | 0 <= c < |w.chromes| ensures w.chromes[c].closes == 1 {
      assert ChromeOk(w, c);
      var i := w.chromes[c].session;
      assert SessionOk(w.sessions[i]) && PlaceOk(w, i);
    }
  }

  // ---------------------------------------------------------------------
  // The table and the clients
  // ---------------------------------------------------------------------

  lemma TableChangesOnlyHere(w: World, e: Event)
    requires !e.Connect? && !e.Evict? && !e.TurnAway? && !e.CloseManager?
    ensures Next(w, e).table == w.table
  {
  }

  // A mapping disappears only when the mapped session itself is torn down or failed to launch,
  // or when the manager closes; a session that replaced another is never evicted in its place.
  lemma EvictionSparesOthers(w: World, e: Event, key: string)
    requires Inv(w)
    requires key in w.table
    ensures var v := Next(w, e); var s := w.sessions[w.table[key]];
      || (key in v.table && v.table[key] == w.table[key])
      || (key !in v.table
          && (e == CloseManager
              || (e == Evict(w.table[key]) && s.closed)
              || (e.TurnAway? && e.c < |w.clients| && w.clients[e.c].phase == Waiting(w.table[key]) && s.launch == Failed)))
  {
    if e.Evict? {
      if e.s < |w.sessions| {
        assert SessionOk(w.sessions[e.s]);
      }
    } else if !e.Connect? && !e.TurnAway? && !e.CloseManager? {
      TableChangesOnlyHere(w, e);
    }
  }

  // A connecting client waits on the one session of its key that is neither closed nor failed,
  // or on none past its eviction; two sessions of one key are never both alive.
  lemma ConnectFindsTheLiveSession(es: seq<Event>, key: string)
    requires !Run(es).closed
    ensures var w := Run(es); var v := Next(w, Connect(key));
      && |v.clients| == |w.clients| + 1
      && v.clients[|w.clients|].phase.Waiting?
      && v.clients[|w.clients|].phase.session < |v.sessions|
      && v.sessions[v.clients[|w.clients|].phase.session].key == key
      && !PastEviction(v.sessions[v.clients[|w.clients|].phase.session])
      && (forall i :: 0 <= i < |v.sessions| && v.sessions[i].key == key && Live(v.sessions[i]) ==>
            i == v.clients[|w.clients|].phase.session)
  {
    RunKeeps(es);
    var w := Run(es);
    StepKeeps(w, Connect(key));
    var v := Next(w, Connect(key));
    var mine := v.clients[|w.clients|].phase.session;
    assert PlaceOk(v, mine);
    forall i | 0 <= i < |v.sessions| && v.sessions[i].key == key && Live(v.sessions[i]) ensures i == mine {
      assert PlaceOk(v, i);
    }
  }

  // No client can come to this session any more: it is there, and not in the table.
  predicate Unlisted(w: World, i: nat) {
    i < |w.sessions| && forall k :: k in w.table ==> w.table[k] != i
  }

  // A session that left the table never comes back, and a client that connects does not wait on it.
  lemma UnlistedStays(w: World, e: Event, i: nat)
    requires Unlisted(w, i)
    ensures var v := Next(w, e);
      && Unlisted(v, i) && v.sessions[i].key == w.sessions[i].key
      && (e.Connect? ==> |v.clients| == |w.clients| + 1 && v.clients[|w.clients|].phase != Waiting(i))
  {
    if e.Connect? {
      ConnectSparesUnlisted(w, e.key, i);
    } else {
      TableShrinks(w, e);
      KeyStays(w, e, i);
    }
  }

  lemma TableShrinks(w: World, e: Event)
    requires !e.Connect?
    ensures forall k :: k in Next(w, e).table ==> k in w.table && Next(w, e).table[k] == w.table[k]
  {
  }

  lemma KeyStays(w: World, e: Event, i: nat)
    requires !e.Connect? && i < |w.sessions|
    ensures i < |Next(w, e).sessions| && Next(w, e).sessions[i].key == w.sessions[i].key
  {
  }

  lemma ConnectSparesUnlisted(w: World, key: string, i: nat)
    requires Unlisted(w, i)
    ensures var v := Connected(w, key);
      && Unlisted(v, i) && v.sessions[i].key == w.sessions[i].key
      && |v.clients| == |w.clients| + 1 && v.clients[|w.clients|].phase != Waiting(i)
  {
  }

  function Later(w: World, es: seq<Event>): World {
    if es == [] then w else Next(Later(w, es[..|es| - 1]), es[|es| - 1])
  }

  lemma {:induction false} RunLater(es: seq<Event>, more: seq<Event>)
    ensures Run(es + more) == Later(Run(es), more)
  {
    if more == [] {
      assert es + more == es;
    } else {
      RunLater(es, more[..|more| - 1]);
      assert (es + more)[..|es + more| - 1] == es + more[..|more| - 1];
    }
  }

  lemma {:induction false} UnlistedForGood(w: World, more: seq<Event>, i: nat)
    requires Unlisted(w, i)
    ensures Unlisted(Later(w, more), i) && Later(w, more).sessions[i].key == w.sessions[i].key
  {
    if more != [] {
      UnlistedForGood(w, more[..|more| - 1], i);
      UnlistedStays(Later(w, more[..|more| - 1]), more[|more| - 1], i);
    }
  }

  // In every run a client that waits on a failed session takes it off the table when it is turned away. However the run
  // goes on, the session stays off it, and nobody who connects later waits on it: its key gets another session.
  lemma FailureIsNotCached(es: seq<Event>, c: nat, i: nat, more: seq<Event>, key: string)
    requires c < |Run(es).clients| && Run(es).clients[c].phase == Waiting(i)
    requires i < |Run(es).sessions| && Run(es).sessions[i].launch == Failed
    ensures var w := Run(es + [TurnAway(c)] + more); var v := Next(w, Connect(key));
      && Unlisted(w, i)
      && v.clients[|w.clients|].phase != Waiting(i)
      && (!w.closed ==> v.clients[|w.clients|].phase.Waiting? && v.clients[|w.clients|].phase.session != i)
  {
    RunKeeps(es);
    RunLater(es, [TurnAway(c)]);
    RunLater(es + [TurnAway(c)], more);
    assert [TurnAway(c)][..0] == [];
    var w := Run(es + [TurnAway(c)]);
    assert w == Next(Run(es), TurnAway(c));
    assert Unlisted(w, i);
    UnlistedForGood(w, more, i);
    UnlistedStays(Later(w, more), Connect(key), i);
  }

  lemma Moves(w: World, i: nat, a: SessionState, b: SessionState)
    requires i < |w.sessions|
    ensures With(With(w, i, a), i, b) == With(w, i, b)
  {
    assert w.sessions[i := a][i := b] == w.sessions[i := b];
  }

  lemma ChromeArrives(w: World, i: nat)
    requires i < |w.sessions| && w.sessions[i].launch == NotStarted
    ensures Next(Next(w, StartLaunch(i)), LaunchReturns(i)) ==
      With(w, i, w.sessions[i].(launch := Launched(|w.chromes|))).(chromes := w.chromes + [Chrome(i, 0)])
  {
    var s := w.sessions[i].(launch := Launching);
    assert Next(w, StartLaunch(i)) == With(w, i, s);
    Moves(w, i, s, s.(launch := Launched(|w.chromes|)));
  }

  lemma ChromeHandedOver(w: World, i: nat)
    requires i < |w.sessions| && w.sessions[i].launch.Launched? && !w.sessions[i].closed
    ensures Next(Next(w, HandOff(i)), Announce(i)) ==
      With(w, i, w.sessions[i].(conn := Some(w.sessions[i].launch.chrome), launch := Ready))
  {
    var s := w.sessions[i].(conn := Some(w.sessions[i].launch.chrome), launch := Attached);
    assert Next(w, HandOff(i)) == With(w, i, s);
    Moves(w, i, s, s.(launch := Ready));
  }

  // A Chrome that comes up for a session nobody closes meanwhile is a fresh one, and the session's alone.
  lemma LaunchComesUp(w: World, i: nat)
    requires i < |w.sessions| && w.sessions[i].launch == NotStarted && !w.sessions[i].closed
    ensures var up := Next(Next(Next(Next(w, StartLaunch(i)), LaunchReturns(i)), HandOff(i)), Announce(i));
      up == With(w, i, w.sessions[i].(conn := Some(|w.chromes|), launch := Ready)).(chromes := w.chromes + [Chrome(i, 0)])
  {
    ChromeArrives(w, i);
    var v := Next(Next(w, StartLaunch(i)), LaunchReturns(i));
    ChromeHandedOver(v, i);
    Moves(w, i, v.sessions[i], w.sessions[i].(conn := Some(|w.chromes|), launch := Ready));
  }

  // A client that waits on a session that is up and open is served by it.
  lemma WaitingIsServed(w: World, c: nat, i: nat)
    requires c < |w.clients| && i < |w.sessions| && w.clients[c].phase == Waiting(i)
    requires w.sessions[i].launch == Ready && !w.sessions[i].clientsClosed
    ensures Next(Next(w, Admit(c)), Register(c)) ==
      WithPhase(With(w, i, w.sessions[i].(clients := w.sessions[i].clients + {c})), c, Serving(i))
  {
    var v := WithPhase(w, c, Admitted(i));
    assert Next(w, Admit(c)) == v;
    assert v.clients[c := v.clients[c].(phase := Serving(i))] == w.clients[c := w.clients[c].(phase := Serving(i))];
  }

  // No client stays attached to a closed session: once its clients are detached every client
  // still listed has a closed socket, a client that registers later is turned away, and a
  // handler that has ended left no socket open.
  lemma NoClientOnClosedSession(es: seq<Event>, c: nat)
    requires c < |Run(es).clients|
    ensures var w := Run(es); var p := w.clients[c].phase;
      && (p.Serving? ==> p.session < |w.sessions| && c in w.sessions[p.session].clients)
      && (p.Serving? && w.sessions[p.session].clientsClosed ==> !w.clients[c].open)
      && (p == Gone ==> !w.clients[c].open)
      && (p.Admitted? && p.session < |w.sessions| && w.sessions[p.session].clientsClosed ==>
            Next(w, Register(c)).clients[c].phase == Parting && Next(w, Register(c)).sessions == w.sessions)
  {
    RunKeeps(es);
    assert ClientOk(Run(es), c);
  }

  // ---------------------------------------------------------------------
  // The same critical sections as methods over shared objects
  // ---------------------------------------------------------------------

  class Socket {
    var open: bool

    constructor ()
      ensures open
    {
      open := true;
    }

    method Close()
      modifies this
      ensures !open
    {
      open := false;
    }
  }

  class Session {
    const key: string
    var conn: Option<nat>
    var closed: bool
    var clients: set<Socket>
    var clientsClosed: bool

    constructor (key: string)
      ensures this.key == key && conn == None && !closed && clients == {} && !clientsClosed
    {
      this.key := key;
      conn, closed, clients, clientsClosed := None, false, {}, false;
    }

    // The launcher's section under `mu`: it keeps the Chrome exactly when the session is closed.
    method HandOff(chrome: nat, s: SessionState) returns (mine: bool)
      requires s.conn == conn && s.closed == closed
      modifies this`conn
      ensures mine == old(closed)
      ensures HandedOff(s, chrome).conn == conn
      ensures HandedOff(s, chrome).launch == if mine then Refused(chrome) else Attached
    {
      mine := closed;
      if !closed {
        conn := Some(chrome);
      }
    }

    // The closer's section under `mu`: what it takes is what it must close.
    method TakeForClosing(s: SessionState) returns (taken: Option<nat>)
      requires s.conn == conn && s.closed == closed
      modifies this`closed
      ensures TakenForClosing(s).closed == closed
      ensures TakenForClosing(s).closer == Signalling(taken) && conn == taken
    {
      closed := true;
      taken := conn;
    }

    // Registration under `clientsMu`: a late client finds its socket closed instead.
    method Register(ws: Socket) returns (ok: bool)
      modifies this`clients, ws
      ensures ok == !clientsClosed
      ensures clients == if ok then old(clients) + {ws} else old(clients)
      ensures ws.open == (ok && old(ws.open))
    {
      ok := !clientsClosed;
      if ok {
        clients := clients + {ws};
      } else {
        ws.Close();
      }
    }

    // The closer's section under `clientsMu`.
    method DetachClients()
      modifies this`clientsClosed, clients
      ensures clientsClosed
      ensures forall ws :: ws in clients ==> !ws.open
    {
      clientsClosed := true;
      var rest := clients;
      while rest != {}
        invariant rest <= clients && clients == old(clients) && clientsClosed
        invariant forall ws :: ws in clients && ws !in rest ==> !ws.open
        decreases |rest|
      {
        var ws :| ws in rest;
        ws.Close();
        rest := rest - {ws};
      }
      forall ws | ws in clients ensures !ws.open {
        assert ws !in rest;
      }
    }
  }

  class Manager {
    var closed: bool
    var sessions: map<string, Session>

    constructor ()
      ensures !closed && sessions == map[]
    {
      closed, sessions := false, map[];
    }

    // firstConnect's section under `mu`.
    method FindOrCreate(key: string) returns (s: Option<Session>)
      modifies this`sessions
      ensures s.None? <==> closed
      ensures closed ==> sessions == old(sessions)
      ensures !closed ==> sessions == old(sessions)[key := s.value]
      ensures !closed && key in old(sessions) ==> s.value == old(sessions)[key]
      ensures !closed && key !in old(sessions) ==> fresh(s.value) && s.value.key == key && !s.value.closed && s.value.conn == None
    {
      if closed {
        return None;
      }
      if key !in sessions {
        var created := new Session(key);
        sessions := sessions[key := created];
      }
      s := Some(sessions[key]);
    }

    method EvictSession(key: string, s: Session)
      modifies this`sessions
      ensures sessions == Evicted(old(sessions), key, s)
      ensures forall k :: k in old(sessions) && old(sessions)[k] != s ==> k in sessions && sessions[k] == old(sessions)[k]
    {
      if key in sessions && sessions[key] == s {
        sessions := sessions - {key};
      }
    }

    // Close's section under `mu`: only the first caller gets the sessions.
    method TakeSessions() returns (taken: set<Session>)
      modifies this
      ensures closed && (old(closed) ==> sessions == old(sessions) && taken == {})
      ensures !old(closed) ==> sessions == map[] && taken == old(sessions).Values
    {
      taken := {};
      if !closed {
        closed := true;
        taken := sessions.Values;
        sessions := map[];
      }
    }
  }
}
