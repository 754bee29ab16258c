/**
  The snapshot pipeline as a step system: collector queue, relay, lossy
  broadcast, server sessions behind permits and a handshake, clients that
  reconnect, and the queue in front of each TUI.

  Snapshots are named by their production number. Everything foreign (timeouts,
  TLS, failed writes, the rate limiter's verdict, encode failures) is the choice
  of the event. An event that is not enabled changes nothing.
*/
module Pipeline {
  import opened Basics

  type Token = seq<bv8>

  const BROADCAST_CAPACITY: nat := 16

  datatype Config = Config(maxClients: nat, collectorCapacity: nat, clientCapacity: nat, token: Token)

  datatype Msg = Welcome | Snap(id: nat) | Heartbeat | Unauthorized

  datatype Phase = Tls | AwaitHello | Streaming

  /** A live server task: it holds one permit and one broadcast receiver. */
  datatype Session = Session(phase: Phase, cursor: nat)

  datatype Link = Offline | Handshaking(session: nat) | Live(session: nat)

  /** `read` counts the messages taken off the current connection. */
  datatype Client = Client(link: Link, read: nat, queue: seq<nat>, shown: seq<nat>)

  datatype State = State(
    produced: nat,
    queue: seq<nat>,
    sent: seq<nat>,
    permits: nat,
    sessions: map<nat, Session>,
    nextSession: nat,
    logs: map<nat, seq<Msg>>,
    hellos: map<nat, Token>,
    clients: map<nat, Client>)

  datatype HelloOutcome = NoHello | OtherMessage | Presented(token: Option<Token>)

  datatype Event =
    | Produce
    | Relay(encodes: bool)
    | Connect(client: nat, withinRate: bool)
    | TlsDone(session: nat, ok: bool)
    | HelloDone(session: nat, outcome: HelloOutcome, written: bool)
    | Recv(session: nat, written: bool)
    | Beat(session: nat, written: bool)
    | Close(session: nat)
    | ClientRead(client: nat)
    | ClientDrop(client: nat)
    | Show(client: nat)

  // ------------------------------------------------------------------- steps

  function Init(cfg: Config, clients: set<nat>): State {
    State(0, [], [], cfg.maxClients, map[], 0, map[], map[], map c | c in clients :: Client(Offline, 0, [], []))
  }

  /** A tick of the collector: the bounded queue takes the snapshot or drops it. */
  function OnProduce(cfg: Config, s: State): State {
    s.(produced := s.produced + 1,
       queue := if |s.queue| < cfg.collectorCapacity then s.queue + [s.produced] else s.queue)
  }

  /** The relay drops a snapshot nobody subscribes to or that does not encode. */
  function OnRelay(s: State, encodes: bool): State {
    if s.queue == [] then s
    else
      s.(queue := s.queue[1..],
         sent := if s.sessions != map[] && encodes then s.sent + [s.queue[0]] else s.sent)
  }

  /** Rate limit, then permit, then subscribe: what happens to one dialling client. */
  function OnConnect(s: State, c: nat, withinRate: bool): State {
    if c !in s.clients || s.clients[c].link != Offline || !withinRate || s.permits == 0 then s
    else
      var id := s.nextSession;
      s.(permits := s.permits - 1,
         nextSession := id + 1,
         sessions := s.sessions[id := Session(Tls, |s.sent|)],
         logs := s.logs[id := []],
         clients := s.clients[c := s.clients[c].(link := Handshaking(id), read := 0)])
  }

  /** The task returns: its receiver goes and its permit is dropped. */
  function End(s: State, id: nat): State {
    s.(sessions := s.sessions - {id}, permits := s.permits + 1)
  }

  function Append(s: State, id: nat, m: Msg): State
    requires id in s.logs
  {
    s.(logs := s.logs[id := s.logs[id] + [m]])
  }

  function OnTls(s: State, id: nat, ok: bool): State {
    if id !in s.sessions || s.sessions[id].phase != Tls then s
    else if ok then s.(sessions := s.sessions[id := s.sessions[id].(phase := AwaitHello)])
    else End(s, id)
  }

  function Provided(token: Option<Token>): Token {
    match token
    case Some(t) => t
    case None => []
  }

  function OnHello(cfg: Config, s: State, id: nat, outcome: HelloOutcome, written: bool): State {
    if id !in s.sessions || id !in s.logs || s.sessions[id].phase != AwaitHello then s
    else
      match outcome
      case Presented(token) =>
        var s := s.(hellos := s.hellos[id := Provided(token)]);
        if Provided(token) != cfg.token then
          End(if written then Append(s, id, Unauthorized) else s, id)
        else if written then
          Append(s.(sessions := s.sessions[id := s.sessions[id].(phase := Streaming)]), id, Welcome)
        else End(s, id)
      case _ => End(s, id)
  }

  /** `recv` on the broadcast: skip to the oldest retained value when lagging, else forward the next. */
  function OnRecv(s: State, id: nat, written: bool): State {
    if id !in s.sessions || id !in s.logs || s.sessions[id].phase != Streaming then s
    else
      var cursor := s.sessions[id].cursor;
      if cursor + BROADCAST_CAPACITY < |s.sent| then
        s.(sessions := s.sessions[id := s.sessions[id].(cursor := |s.sent| - BROADCAST_CAPACITY)])
      else if cursor < |s.sent| then
        var s := s.(sessions := s.sessions[id := s.sessions[id].(cursor := cursor + 1)]);
        if written then Append(s, id, Snap(s.sent[cursor])) else End(s, id)
      else s
  }

  function OnBeat(s: State, id: nat, written: bool): State {
    if id !in s.sessions || id !in s.logs || s.sessions[id].phase != Streaming then s
    else if written then Append(s, id, Heartbeat)
    else End(s, id)
  }

  function OnClose(s: State, id: nat): State {
    if id in s.sessions then End(s, id) else s
  }

  function Deliver(cfg: Config, c: Client, id: nat): Client {
    if |c.queue| < cfg.clientCapacity then c.(queue := c.queue + [id]) else c
  }

  /** One frame off the connection, in the client's handshake or its streaming loop. */
  function OnClientRead(cfg: Config, s: State, who: nat): State {
    if who !in s.clients || s.clients[who].link == Offline then s
    else
      var c := s.clients[who];
      var id := c.link.session;
      if id !in s.logs || c.read >= |s.logs[id]| then s
      else
        var m := s.logs[id][c.read];
        var c := c.(read := c.read + 1);
        var c :=
          if c.link.Handshaking? then c.(link := if m == Welcome then Live(id) else Offline)
          else
            match m
            case Snap(n) => Deliver(cfg, c, n)
            case Unauthorized => c.(link := Offline)
            case _ => c;
        s.(clients := s.clients[who := c])
  }

  /** Whatever ends a connection on the client's side; it dials again only after this. */
  function OnClientDrop(s: State, who: nat): State {
    if who in s.clients then s.(clients := s.clients[who := s.clients[who].(link := Offline)]) else s
  }

  function OnShow(s: State, who: nat): State {
    if who in s.clients && s.clients[who].queue != [] then
      var c := s.clients[who];
      s.(clients := s.clients[who := c.(queue := c.queue[1..], shown := c.shown + [c.queue[0]])])
    else s
  }

  function Step(cfg: Config, s: State, e: Event): State {
    match e
    case Produce => OnProduce(cfg, s)
    case Relay(encodes) => OnRelay(s, encodes)
    case Connect(c, withinRate) => OnConnect(s, c, withinRate)
    case TlsDone(id, ok) => OnTls(s, id, ok)
    case HelloDone(id, outcome, written) => OnHello(cfg, s, id, outcome, written)
    case Recv(id, written) => OnRecv(s, id, written)
    case Beat(id, written) => OnBeat(s, id, written)
    case Close(id) => OnClose(s, id)
    case ClientRead(c) => OnClientRead(cfg, s, c)
    case ClientDrop(c) => OnClientDrop(s, c)
    case Show(c) => OnShow(s, c)
  }

  function Run(cfg: Config, s: State, events: seq<Event>): State {
    if events == [] then s
    else Step(cfg, Run(cfg, s, events[..|events| - 1]), events[|events| - 1])
  }

  // ------------------------------------------------------ permits and sessions

  ghost predicate Permits(cfg: Config, s: State) {
    && s.permits + |s.sessions.Keys| == cfg.maxClients
    && (forall id :: id in s.sessions ==> id < s.nextSession)
  }

  /** What a step can do to the permits: nothing, take one for a new session, or give one back for an ended one. */
  datatype Change = Kept | Opened | Ended(id: nat)

  ghost predicate Changes(s: State, s': State, change: Change) {
    match change
    case Kept => s'.permits == s.permits && s'.nextSession == s.nextSession && s'.sessions.Keys == s.sessions.Keys
    case Opened =>
      && s.permits > 0 && s'.permits == s.permits - 1 && s'.nextSession == s.nextSession + 1
      && s'.sessions.Keys == s.sessions.Keys + {s.nextSession}
    case Ended(id) =>
      && id in s.sessions && s'.permits == s.permits + 1 && s'.nextSession == s.nextSession
      && s'.sessions.Keys == s.sessions.Keys - {id}
  }

  ghost function ChangeOf(s: State, e: Event, s': State): Change {
    if s'.permits < s.permits then Opened
    else if s'.permits == s.permits then Kept
    else Ended(if e.TlsDone? || e.HelloDone? || e.Recv? || e.Beat? || e.Close? then e.session else 0)
  }

  lemma TlsChanges(cfg: Config, s: State, e: Event)
    requires e.TlsDone?
    ensures Changes(s, Step(cfg, s, e), ChangeOf(s, e, Step(cfg, s, e)))
  {
    var s' := Step(cfg, s, e);
    if s'.permits == s.permits {
      assert s'.sessions.Keys == s.sessions.Keys;
    }
  }

  lemma HelloChanges(cfg: Config, s: State, e: Event)
    requires e.HelloDone?
    ensures Changes(s, Step(cfg, s, e), ChangeOf(s, e, Step(cfg, s, e)))
  {
    var s' := Step(cfg, s, e);
    if s'.permits == s.permits {
      assert s'.sessions.Keys == s.sessions.Keys;
    } else {
      assert s'.sessions.Keys == s.sessions.Keys - {e.session};
    }
  }

  lemma RecvChanges(cfg: Config, s: State, e: Event)
    requires e.Recv?
    ensures Changes(s, Step(cfg, s, e), ChangeOf(s, e, Step(cfg, s, e)))
  {
    var s' := Step(cfg, s, e);
    if s'.permits == s.permits {
      assert s'.sessions.Keys == s.sessions.Keys;
    } else {
      assert s'.sessions.Keys == s.sessions.Keys - {e.session};
    }
  }

  lemma StepChanges(cfg: Config, s: State, e: Event)
    ensures Changes(s, Step(cfg, s, e), ChangeOf(s, e, Step(cfg, s, e)))
  {
    match e
    case TlsDone(_, _) => TlsChanges(cfg, s, e);
    case HelloDone(_, _, _) => HelloChanges(cfg, s, e);
    case Recv(_, _) => RecvChanges(cfg, s, e);
    case _ =>
  }

  lemma StepKeepsPermits(cfg: Config, s: State, e: Event)
    requires Permits(cfg, s)
    ensures Permits(cfg, Step(cfg, s, e))
    ensures s.nextSession <= Step(cfg, s, e).nextSession
    ensures forall id :: id < s.nextSession && id in Step(cfg, s, e).sessions ==> id in s.sessions
  {
    hide Step;
    StepChanges(cfg, s, e);
    assert s.nextSession !in s.sessions.Keys;
  }

  /** In every reachable state the free permits and the live sessions add up to `maxClients`. */
  lemma {:induction false} PermitsAreConserved(cfg: Config, clients: set<nat>, events: seq<Event>)
    ensures Permits(cfg, Run(cfg, Init(cfg, clients), events))
  {
    hide Step;
    if events != [] {
      var n := |events| - 1;
      PermitsAreConserved(cfg, clients, events[..n]);
      StepKeepsPermits(cfg, Run(cfg, Init(cfg, clients), events[..n]), events[n]);
    }
  }

  /** A session that has given its permit back is gone for good, so none is given back twice. */
  lemma {:induction false} EndedStaysEnded(cfg: Config, s: State, id: nat, events: seq<Event>)
    requires Permits(cfg, s) && id < s.nextSession && id !in s.sessions
    ensures Permits(cfg, Run(cfg, s, events)) && id < Run(cfg, s, events).nextSession
    ensures id !in Run(cfg, s, events).sessions
  {
    hide Step;
    if events != [] {
      var n := |events| - 1;
      EndedStaysEnded(cfg, s, id, events[..n]);
      StepKeepsPermits(cfg, Run(cfg, s, events[..n]), events[n]);
    }
  }

  /** How many times a permit was dropped in a run. */
  ghost function Released(cfg: Config, s: State, events: seq<Event>): nat {
    if events == [] then 0
    else
      var before := Run(cfg, s, events[..|events| - 1]);
      Released(cfg, s, events[..|events| - 1])
      + if Step(cfg, before, events[|events| - 1]).permits > before.permits then 1 else 0
  }

  /** Every session ever accepted took one permit; each is either live or released, once. */
  lemma {:induction false} PermitsAreReleasedOnce(cfg: Config, clients: set<nat>, events: seq<Event>)
    ensures var s := Run(cfg, Init(cfg, clients), events);
            Released(cfg, Init(cfg, clients), events) + |s.sessions.Keys| == s.nextSession
  {
    hide Step;
    if events != [] {
      var n := |events| - 1;
      var s := Run(cfg, Init(cfg, clients), events[..n]);
      PermitsAreReleasedOnce(cfg, clients, events[..n]);
      PermitsAreConserved(cfg, clients, events[..n]);
      StepChanges(cfg, s, events[n]);
      assert s.nextSession !in s.sessions.Keys;
    }
  }

  // ---------------------------------------------------------------- handshake

  /** What a session may ever write: nothing, one refusal, or Welcome and then the stream. */
  ghost predicate Polite(log: seq<Msg>) {
    || log == [] || log == [Unauthorized]
    || (log[0] == Welcome && forall i :: 0 < i < |log| ==> log[i].Snap? || log[i] == Heartbeat)
  }

  ghost predicate SessionOk(cfg: Config, s: State, id: nat) {
    && (id in s.logs ==>
          && id < s.nextSession && Polite(s.logs[id])
          && (s.logs[id] != [] ==> id in s.hellos && (s.logs[id][0] == Welcome <==> s.hellos[id] == cfg.token)))
    && (id in s.sessions ==>
          && id in s.logs
          && if s.sessions[id].phase == Streaming then s.logs[id] != [] && s.logs[id][0] == Welcome
             else s.logs[id] == [])
  }

  ghost predicate Authenticated(cfg: Config, s: State) {
    forall id: nat :: SessionOk(cfg, s, id)
  }

  lemma HelloKeepsSession(cfg: Config, s: State, who: nat, outcome: HelloOutcome, written: bool, id: nat)
    requires SessionOk(cfg, s, id)
    ensures SessionOk(cfg, OnHello(cfg, s, who, outcome, written), id)
  {
  }

  lemma StepKeepsSession(cfg: Config, s: State, e: Event, id: nat)
    requires SessionOk(cfg, s, id)
    ensures SessionOk(cfg, Step(cfg, s, e), id)
  {
    match e
    case HelloDone(who, outcome, written) => HelloKeepsSession(cfg, s, who, outcome, written, id);
    case _ =>
  }

  lemma InitIsOk(cfg: Config, clients: set<nat>)
    ensures Authenticated(cfg, Init(cfg, clients))
  {
  }

  /**
    Nothing but a refusal is written before Welcome, and Welcome goes exactly to
    those who presented the configured token.
  */
  lemma {:induction false} HandshakeComesFirst(cfg: Config, clients: set<nat>, events: seq<Event>)
    ensures Authenticated(cfg, Run(cfg, Init(cfg, clients), events))
  {
    hide Step, SessionOk;
    if events == [] {
      assert forall id: nat :: SessionOk(cfg, Init(cfg, clients), id) by {
        InitIsOk(cfg, clients);
      }
    } else {
      var n := |events| - 1;
      HandshakeComesFirst(cfg, clients, events[..n]);
      forall id: nat ensures SessionOk(cfg, Run(cfg, Init(cfg, clients), events), id) {
        StepKeepsSession(cfg, Run(cfg, Init(cfg, clients), events[..n]), events[n], id);
      }
    }
  }

  // ---------------------------------------------------------------- end to end

  ghost predicate Increasing(s: seq<nat>) {
    forall i, j :: 0 <= i < j < |s| ==> s[i] < s[j]
  }

  function Snaps(log: seq<Msg>): seq<nat> {
    if log == [] then []
    else
      var last := log[|log| - 1];
      Snaps(log[..|log| - 1]) + if last.Snap? then [last.id] else []
  }

  /** Snapshots on the way to client `c`: shown, queued, and written but not yet read. */
  ghost function Chain(s: State, c: Client): seq<nat> {
    c.shown + c.queue + InFlight(s, c)
  }

  /** Messages written to the client's connection that it has not read. */
  ghost function Unread(s: State, c: Client): seq<Msg> {
    if c.link != Offline && c.link.session in s.logs && c.read <= |s.logs[c.link.session]|
    then s.logs[c.link.session][c.read..] else []
  }

  ghost function InFlight(s: State, c: Client): seq<nat> {
    Snaps(Unread(s, c))
  }

  /** How much of the broadcast the client's connection has been past. */
  ghost function Passed(s: State, c: Client): nat {
    if c.link != Offline && c.link.session in s.sessions then s.sessions[c.link.session].cursor else |s.sent|
  }

  ghost predicate ServerOrdered(s: State) {
    && Increasing(s.sent + s.queue)
    && (forall i :: 0 <= i < |s.sent + s.queue| ==> (s.sent + s.queue)[i] < s.produced)
    && (forall id :: id in s.sessions ==> s.sessions[id].cursor <= |s.sent|)
  }

  ghost predicate Drawn(chain: seq<nat>, source: seq<nat>) {
    forall i :: 0 <= i < |chain| ==> chain[i] in source
  }

  ghost predicate ClientOrdered(s: State, c: Client) {
    && (c.link != Offline ==> c.link.session < s.nextSession && c.link.session in s.logs && c.read <= |s.logs[c.link.session]|)
    && Increasing(Chain(s, c))
    && Passed(s, c) <= |s.sent| && Drawn(Chain(s, c), s.sent[..Passed(s, c)])
  }

  lemma ProduceKeepsOrder(cfg: Config, s: State)
    requires ServerOrdered(s)
    ensures ServerOrdered(OnProduce(cfg, s))
  {
    var s' := OnProduce(cfg, s);
    if s'.queue != s.queue {
      assert s'.sent + s'.queue == (s.sent + s.queue) + [s.produced];
    }
  }

  lemma RelayKeepsOrder(s: State, encodes: bool)
    requires ServerOrdered(s)
    ensures ServerOrdered(OnRelay(s, encodes))
  {
    var s' := OnRelay(s, encodes);
    if s.queue != [] {
      var all_ := s.sent + s.queue;
      if s'.sent != s.sent {
        assert s'.sent + s'.queue == all_;
      } else {
        forall i | 0 <= i < |s'.sent + s'.queue|
          ensures (s'.sent + s'.queue)[i] == all_[if i < |s.sent| then i else i + 1]
        {
        }
      }
    }
  }

  lemma HelloKeepsOrder(cfg: Config, s: State, id: nat, outcome: HelloOutcome, written: bool)
    requires ServerOrdered(s)
    ensures ServerOrdered(OnHello(cfg, s, id, outcome, written))
  {
    hide Increasing;
  }

  lemma RecvKeepsOrder(s: State, id: nat, written: bool)
    requires ServerOrdered(s)
    ensures ServerOrdered(OnRecv(s, id, written))
  {
    hide Increasing;
  }

  lemma StepKeepsServerOrder(cfg: Config, s: State, e: Event)
    requires ServerOrdered(s)
    ensures ServerOrdered(Step(cfg, s, e))
  {
    match e
    case Produce => ProduceKeepsOrder(cfg, s);
    case Relay(encodes) => RelayKeepsOrder(s, encodes);
    case HelloDone(id, outcome, written) => HelloKeepsOrder(cfg, s, id, outcome, written);
    case Recv(id, written) => RecvKeepsOrder(s, id, written);
    case _ =>
  }

  lemma DrawnWidens(chain: seq<nat>, source: seq<nat>, n: nat, m: nat)
    requires n <= m <= |source| && Drawn(chain, source[..n])
    ensures Drawn(chain, source[..m])
  {
    forall i | 0 <= i < |chain| ensures chain[i] in source[..m] {
      var k :| 0 <= k < n && source[..n][k] == chain[i];
      assert source[..m][k] == chain[i];
    }
  }

  lemma DropKeepsOrder(a: seq<nat>, x: seq<nat>, b: seq<nat>, source: seq<nat>)
    requires Increasing(a + x + b) && Drawn(a + x + b, source)
    ensures Increasing(a + b) && Drawn(a + b, source)
  {
    var all_ := a + x + b;
    assert forall i :: 0 <= i < |a + b| ==> (a + b)[i] == all_[if i < |a| then i else i + |x|];
  }

  lemma {:induction false} SnapsOfHead(m: Msg, rest: seq<Msg>)
    ensures Snaps([m] + rest) == (if m.Snap? then [m.id] else []) + Snaps(rest)
  {
    if rest == [] {
      assert [m] + rest == [m];
      assert Snaps([m]) == Snaps([]) + if m.Snap? then [m.id] else [];
    } else {
      var n := |rest| - 1;
      SnapsOfHead(m, rest[..n]);
      assert ([m] + rest)[..n + 1] == [m] + rest[..n];
    }
  }

  lemma SnapsOfTail(log: seq<Msg>, read: nat, m: Msg)
    requires read <= |log|
    ensures Snaps((log + [m])[read..]) == Snaps(log[read..]) + if m.Snap? then [m.id] else []
  {
    assert (log + [m])[read..] == log[read..] + [m];
  }

  /** A client whose own record a step leaves alone, on a connection the step leaves alone. */
  lemma UntouchedClient(s: State, s': State, c: Client)
    requires ClientOrdered(s, c) && s.nextSession <= s'.nextSession && s.sent <= s'.sent
    requires c.link != Offline ==>
               var id := c.link.session;
               && id in s'.logs && s'.logs[id] == s.logs[id]
               && (id in s'.sessions ==> id in s.sessions && s.sessions[id].cursor <= s'.sessions[id].cursor <= |s'.sent|)
    ensures ClientOrdered(s', c)
  {
    var n, m := Passed(s, c), Passed(s', c);
    assert Chain(s', c) == Chain(s, c);
    assert s'.sent[..n] == s.sent[..n];
    DrawnWidens(Chain(s, c), s'.sent, n, m);
  }

  /** What `c` is waiting for grows by a message that carries no snapshot. */
  lemma SilentAppend(s: State, s': State, c: Client, m: Msg)
    requires ClientOrdered(s, c) && c.link != Offline && !m.Snap?
    requires var id := c.link.session;
             && s'.sent == s.sent && s'.nextSession == s.nextSession
             && id in s'.logs && s'.logs[id] == s.logs[id] + [m]
             && (id in s'.sessions ==> id in s.sessions && s'.sessions[id].cursor == s.sessions[id].cursor)
    ensures ClientOrdered(s', c)
  {
    SnapsOfTail(s.logs[c.link.session], c.read, m);
    assert Chain(s', c) == Chain(s, c);
    DrawnWidens(Chain(s, c), s.sent, Passed(s, c), Passed(s', c));
  }

  lemma HelloKeepsClient(cfg: Config, s: State, id: nat, outcome: HelloOutcome, written: bool, c: Client)
    requires ServerOrdered(s) && ClientOrdered(s, c)
    ensures ClientOrdered(OnHello(cfg, s, id, outcome, written), c)
  {
    var s' := OnHello(cfg, s, id, outcome, written);
    if c.link != Offline && c.link.session == id && s'.logs != s.logs && id in s.logs {
      SilentAppend(s, s', c, if Provided(outcome.token) == cfg.token then Welcome else Unauthorized);
    } else {
      UntouchedClient(s, s', c);
    }
  }

  /** Taking the next broadcast value extends what was drawn from the ones before it. */
  lemma NextKeepsOrder(chain: seq<nat>, sent: seq<nat>, queue: seq<nat>, k: nat)
    requires Increasing(sent + queue) && k < |sent| && Increasing(chain) && Drawn(chain, sent[..k])
    ensures Increasing(chain + [sent[k]]) && Drawn(chain + [sent[k]], sent[..k + 1])
  {
    forall i | 0 <= i < |chain| ensures chain[i] < sent[k] && chain[i] in sent[..k + 1] {
      var j :| 0 <= j < k && sent[..k][j] == chain[i];
      assert (sent + queue)[j] < (sent + queue)[k];
      assert sent[..k + 1][j] == chain[i];
    }
    assert sent[..k + 1][k] == sent[k];
  }

  /** What `recv` does to a log it writes to: the next value, and the cursor moves past it. */
  lemma RecvForwards(s: State, id: nat, written: bool)
    requires ServerOrdered(s) && OnRecv(s, id, written).logs != s.logs
    ensures var s' := OnRecv(s, id, written);
            && id in s.sessions && id in s.logs && id in s'.sessions && id in s'.logs
            && s'.sent == s.sent && s'.queue == s.queue && s'.nextSession == s.nextSession
            && var cursor := s.sessions[id].cursor;
               && cursor < |s.sent| && s'.sessions[id].cursor == cursor + 1
               && s'.logs[id] == s.logs[id] + [Snap(s.sent[cursor])]
  {
  }

  /** The value forwarded last extends the chain of the client it goes to. */
  lemma ForwardKeepsClient(s: State, s': State, c: Client)
    requires ServerOrdered(s) && ClientOrdered(s, c) && c.link != Offline
    requires var id := c.link.session;
             && id in s.sessions && id in s'.sessions && id in s'.logs
             && s'.sent == s.sent && s'.nextSession == s.nextSession
             && var cursor := s.sessions[id].cursor;
                && cursor < |s.sent| && s'.sessions[id].cursor == cursor + 1
                && s'.logs[id] == s.logs[id] + [Snap(s.sent[cursor])]
    ensures ClientOrdered(s', c)
  {
    hide Increasing, Drawn;
    var id := c.link.session;
    var cursor := s.sessions[id].cursor;
    var chain := Chain(s, c);
    SnapsOfTail(s.logs[id], c.read, Snap(s.sent[cursor]));
    assert Chain(s', c) == chain + [s.sent[cursor]];
    NextKeepsOrder(chain, s.sent, s.queue, cursor);
  }

  lemma RecvKeepsClient(s: State, id: nat, written: bool, c: Client)
    requires ServerOrdered(s) && ClientOrdered(s, c)
    ensures ClientOrdered(OnRecv(s, id, written), c)
  {
    hide Increasing, Drawn, Snaps;
    var s' := OnRecv(s, id, written);
    if s'.logs != s.logs {
      RecvForwards(s, id, written);
    }
    if c.link != Offline && c.link.session == id && s'.logs != s.logs {
      ForwardKeepsClient(s, s', c);
    } else {
      UntouchedClient(s, s', c);
    }
  }

  lemma BeatKeepsClient(s: State, id: nat, written: bool, c: Client)
    requires ServerOrdered(s) && ClientOrdered(s, c)
    ensures ClientOrdered(OnBeat(s, id, written), c)
  {
    var s' := OnBeat(s, id, written);
    if c.link != Offline && c.link.session == id && s'.logs != s.logs {
      SilentAppend(s, s', c, Heartbeat);
    } else {
      UntouchedClient(s, s', c);
    }
  }

  /** Going offline forgets what was in flight; a new connection starts at the end of the broadcast. */
  lemma RestartKeepsClient(s: State, s': State, c: Client, c': Client)
    requires ServerOrdered(s) && ClientOrdered(s, c) && s'.sent == s.sent && c'.shown == c.shown && c'.queue == c.queue
    requires c'.link == Offline ||
             (c'.link.session < s'.nextSession && c'.link.session in s'.logs && s'.logs[c'.link.session] == []
              && c'.read == 0 && (c'.link.session in s'.sessions ==> s'.sessions[c'.link.session].cursor == |s'.sent|))
    ensures ClientOrdered(s', c')
  {
    var kept := c.shown + c.queue;
    assert Chain(s, c) == kept + InFlight(s, c) + [];
    DropKeepsOrder(kept, InFlight(s, c), [], s.sent[..Passed(s, c)]);
    assert InFlight(s', c') == [];
    assert Chain(s', c') == kept + [];
    DrawnWidens(kept + [], s.sent, Passed(s, c), |s.sent|);
  }

  /** Taking one message: the client keeps its snapshot, if it is one and there is room, or lets it go. */
  ghost predicate Takes(s: State, c: Client, c': Client) {
    && c.link != Offline && c'.link != Offline && c'.link.session == c.link.session
    && c.link.session in s.logs && c.read < |s.logs[c.link.session]| && c'.read == c.read + 1
    && c'.shown == c.shown
    && var m := s.logs[c.link.session][c.read];
       c'.queue == c.queue || (m.Snap? && c'.queue == c.queue + [m.id])
  }

  lemma ReadTakes(cfg: Config, s: State, who: nat)
    requires who in s.clients
    ensures var s' := OnClientRead(cfg, s, who);
            && s' == s.(clients := s'.clients) && who in s'.clients
            && var c, c' := s.clients[who], s'.clients[who];
               c' == c || Takes(s, c, c') || (c'.link == Offline && c'.shown == c.shown && c'.queue == c.queue)
  {
  }

  lemma TakeKeepsClient(s: State, s': State, c: Client, c': Client)
    requires ServerOrdered(s) && ClientOrdered(s, c) && Takes(s, c, c') && s' == s.(clients := s'.clients)
    ensures ClientOrdered(s', c')
  {
    hide Increasing, Drawn, InFlight;
    var m := s.logs[c.link.session][c.read];
    var kept := c.shown + c.queue;
    var head := if m.Snap? then [m.id] else [];
    var rest := InFlight(s', c');
    TakingSplitsTheChain(s, s', c, c');
    DropKeepsOrder(kept, head, rest, s.sent[..Passed(s, c)]);
    if c'.queue == c.queue {
      assert Chain(s', c') == kept + rest;
    } else {
      assert c.shown + (c.queue + head) == kept + head;
      assert Chain(s', c') == kept + head + rest;
    }
  }

  lemma TakingSplitsTheChain(s: State, s': State, c: Client, c': Client)
    requires Takes(s, c, c') && s' == s.(clients := s'.clients)
    ensures var m := s.logs[c.link.session][c.read];
            Chain(s, c) == c.shown + c.queue + (if m.Snap? then [m.id] else []) + InFlight(s', c')
  {
    hide Snaps;
    var log := s.logs[c.link.session];
    assert log[c.read..] == [log[c.read]] + log[c.read + 1..];
    SnapsOfHead(log[c.read], log[c.read + 1..]);
  }

  lemma ReadKeepsClient(cfg: Config, s: State, who: nat)
    requires ServerOrdered(s) && who in s.clients && ClientOrdered(s, s.clients[who])
    ensures ClientOrdered(OnClientRead(cfg, s, who), OnClientRead(cfg, s, who).clients[who])
  {
    hide ServerOrdered, Takes, Increasing, Drawn, Snaps;
    ReadTakes(cfg, s, who);
    hide OnClientRead;
    var s' := OnClientRead(cfg, s, who);
    var c, c' := s.clients[who], s'.clients[who];
    if Takes(s, c, c') {
      TakeKeepsClient(s, s', c, c');
    } else if c' == c {
      UntouchedClient(s, s', c);
    } else {
      RestartKeepsClient(s, s', c, c');
    }
  }

  lemma ShowKeepsClient(s: State, who: nat)
    requires who in s.clients && ClientOrdered(s, s.clients[who])
    ensures ClientOrdered(OnShow(s, who), OnShow(s, who).clients[who])
  {
    var s' := OnShow(s, who);
    var c, c' := s.clients[who], s'.clients[who];
    if c.queue != [] {
      assert c'.shown + c'.queue == c.shown + c.queue;
      assert Chain(s', c') == Chain(s, c);
    }
  }

  lemma ConnectKeepsClient(cfg: Config, s: State, k: nat, withinRate: bool, who: nat)
    requires Authenticated(cfg, s) && ServerOrdered(s)
    requires who in s.clients && ClientOrdered(s, s.clients[who])
    ensures who in OnConnect(s, k, withinRate).clients
    ensures ClientOrdered(OnConnect(s, k, withinRate), OnConnect(s, k, withinRate).clients[who])
  {
    hide Chain, Drawn, Increasing;
    var s' := OnConnect(s, k, withinRate);
    var c := s.clients[who];
    assert SessionOk(cfg, s, s.nextSession);
    if k == who && s'.clients != s.clients {
      RestartKeepsClient(s, s', c, s'.clients[who]);
    } else {
      UntouchedClient(s, s', c);
    }
  }

  /** Events that end or advance a session without writing to its log. */
  lemma QuietKeepsClient(cfg: Config, s: State, e: Event, c: Client)
    requires e.Produce? || e.Relay? || e.TlsDone? || e.Close?
    requires ServerOrdered(s) && ClientOrdered(s, c)
    ensures ClientOrdered(Step(cfg, s, e), c)
  {
    hide Chain, Drawn, Increasing;
    UntouchedClient(s, Step(cfg, s, e), c);
  }

  lemma ClientEventKeepsClient(cfg: Config, s: State, e: Event, who: nat)
    requires e.ClientRead? || e.ClientDrop? || e.Show?
    requires ServerOrdered(s) && who in s.clients && ClientOrdered(s, s.clients[who])
    ensures who in Step(cfg, s, e).clients && ClientOrdered(Step(cfg, s, e), Step(cfg, s, e).clients[who])
  {
    hide Chain, Drawn, Increasing;
    var s' := Step(cfg, s, e);
    StepFrames(cfg, s, e);
    if e.client != who {
      UntouchedClient(s, s', s.clients[who]);
    } else {
      match e
      case ClientRead(_) => ReadKeepsClient(cfg, s, who);
      case ClientDrop(_) => RestartKeepsClient(s, s', s.clients[who], s'.clients[who]);
      case Show(_) => ShowKeepsClient(s, who);
    }
  }

  /** Any step keeps any client's snapshots in production order. */
  lemma StepKeepsClient(cfg: Config, s: State, e: Event, who: nat)
    requires Authenticated(cfg, s) && ServerOrdered(s)
    requires who in s.clients && ClientOrdered(s, s.clients[who])
    ensures who in Step(cfg, s, e).clients && ClientOrdered(Step(cfg, s, e), Step(cfg, s, e).clients[who])
  {
    hide ClientOrdered, ServerOrdered, Authenticated;
    hide OnHello, OnRecv, OnBeat, OnClientRead, OnShow, OnConnect;
    var c := s.clients[who];
    StepFrames(cfg, s, e);
    match e
    case Connect(k, withinRate) => ConnectKeepsClient(cfg, s, k, withinRate, who);
    case HelloDone(id, outcome, written) => HelloKeepsClient(cfg, s, id, outcome, written, c);
    case Recv(id, written) => RecvKeepsClient(s, id, written, c);
    case Beat(id, written) => BeatKeepsClient(s, id, written, c);
    case ClientRead(_) => ClientEventKeepsClient(cfg, s, e, who);
    case ClientDrop(_) => ClientEventKeepsClient(cfg, s, e, who);
    case Show(_) => ClientEventKeepsClient(cfg, s, e, who);
    case _ => QuietKeepsClient(cfg, s, e, c);
  }

  /** Client records change only by the client's own events, and client events touch nothing else. */
  lemma StepFrames(cfg: Config, s: State, e: Event)
    ensures var s' := Step(cfg, s, e);
            && s'.clients.Keys == s.clients.Keys
            && (forall k :: k in s.clients && (e.Connect? || e.ClientRead? || e.ClientDrop? || e.Show? ==> e.client != k) ==>
                  s'.clients[k] == s.clients[k])
            && (e.ClientRead? || e.ClientDrop? || e.Show? ==> s' == s.(clients := s'.clients))
  {
    match e
    case HelloDone(id, outcome, written) =>
    case ClientRead(k) =>
      assert OnClientRead(cfg, s, k).clients.Keys == s.clients.Keys;
    case _ =>
  }

  lemma {:induction false} RunIsOrdered(cfg: Config, clients: set<nat>, events: seq<Event>)
    ensures var s := Run(cfg, Init(cfg, clients), events);
            && ServerOrdered(s) && s.clients.Keys == clients
            && forall who :: who in clients ==> ClientOrdered(s, s.clients[who])
  {
    hide Step, ClientOrdered, ServerOrdered, Authenticated;
    var s := Run(cfg, Init(cfg, clients), events);
    if events == [] {
      InitIsOrdered(cfg, clients);
    } else {
      var n := |events| - 1;
      var before := Run(cfg, Init(cfg, clients), events[..n]);
      RunIsOrdered(cfg, clients, events[..n]);
      HandshakeComesFirst(cfg, clients, events[..n]);
      StepKeepsServerOrder(cfg, before, events[n]);
      StepFrames(cfg, before, events[n]);
      forall who | who in clients ensures ClientOrdered(s, s.clients[who]) {
        StepKeepsClient(cfg, before, events[n], who);
      }
    }
  }

  lemma InitIsOrdered(cfg: Config, clients: set<nat>)
    ensures var s := Init(cfg, clients);
            && ServerOrdered(s) && s.clients.Keys == clients
            && forall who :: who in clients ==> ClientOrdered(s, s.clients[who])
  {
  }

  /**
    End to end: across dropped, skipped and lagged snapshots and any number of
    disconnects, what a TUI is shown is strictly increasing in production order,
    and every bit of it was produced and broadcast.
  */
  lemma ShownInProductionOrder(cfg: Config, clients: set<nat>, events: seq<Event>, who: nat)
    requires who in clients
    ensures var s := Run(cfg, Init(cfg, clients), events);
            who in s.clients &&
            var shown := s.clients[who].shown;
            && (forall i, j :: 0 <= i < j < |shown| ==> shown[i] < shown[j])
            && (forall i :: 0 <= i < |shown| ==> shown[i] in s.sent && shown[i] < s.produced)
  {
    hide Step, Run;
    var s := Run(cfg, Init(cfg, clients), events);
    RunIsOrdered(cfg, clients, events);
    var c := s.clients[who];
    var shown, chain := c.shown, Chain(s, c);
    assert forall i :: 0 <= i < |shown| ==> shown[i] == chain[i];
    forall i | 0 <= i < |shown| ensures shown[i] in s.sent && shown[i] < s.produced {
      assert chain[i] in s.sent[..Passed(s, c)];
      var k :| 0 <= k < Passed(s, c) && s.sent[..Passed(s, c)][k] == chain[i];
      assert s.sent[k] == (s.sent + s.queue)[k];
    }
  }
}
