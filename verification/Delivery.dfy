/**
  What the pipeline delivers. A snapshot goes missing only for a reason that has a
  name, and where no reason applies a client can always be brought up to date.
*/
module Delivery {
  import opened Basics
  import opened Pipeline

  // ----------------------------------------------------------- named losses

  /** Broadcast values that a live session has still to draw for the client. */
  ghost function Pending(s: State, c: Client): seq<nat> {
    if c.link != Offline && c.link.session in s.sessions && s.sessions[c.link.session].cursor <= |s.sent|
    then s.sent[s.sessions[c.link.session].cursor..] else []
  }

  /** The client has been shown `v`, or `v` is on its way to it. */
  ghost predicate Owed(s: State, who: nat, v: nat) {
    who in s.clients && (v in Chain(s, s.clients[who]) || v in Pending(s, s.clients[who]))
  }

  /** The next message on the client's connection. */
  function NextMessage(s: State, c: Client): Option<Msg> {
    if c.link != Offline && c.link.session in s.logs && c.read < |s.logs[c.link.session]|
    then Some(s.logs[c.link.session][c.read]) else None
  }

  datatype Loss = QueueFull | Refused | Dropped | Lagged | WriteFailed | SessionClosed

  /** Why `e` loses `v` for the client in state `s`, in terms of the state before it. */
  ghost predicate LosesBecause(cfg: Config, s: State, e: Event, who: nat, v: nat, why: Loss) {
    who in s.clients && s.clients[who].link != Offline &&
    var c := s.clients[who];
    var id := c.link.session;
    match why
    case QueueFull =>
      e == ClientRead(who) && NextMessage(s, c) == Some(Snap(v)) && |c.queue| >= cfg.clientCapacity
    case Refused =>
      && e == ClientRead(who) && NextMessage(s, c).Some?
      && (NextMessage(s, c) == Some(Unauthorized) || (c.link.Handshaking? && NextMessage(s, c) != Some(Welcome)))
    case Dropped => e == ClientDrop(who)
    case Lagged =>
      && e.Recv? && e.session == id && id in s.sessions
      && s.sessions[id].cursor + 16 < |s.sent| && v in s.sent[s.sessions[id].cursor..|s.sent| - 16]
    case WriteFailed => (e.Recv? || e.Beat? || e.HelloDone?) && e.session == id && !e.written
    case SessionClosed =>
      || e == Close(id) || e == TlsDone(id, false)
      || (e.HelloDone? && e.session == id && (!e.outcome.Presented? || Provided(e.outcome.token) != cfg.token))
  }

  ghost predicate Loses(cfg: Config, s: State, e: Event, who: nat, v: nat) {
    exists why :: LosesBecause(cfg, s, e, who, v, why)
  }

  // ------------------------------------------------------- one step at a time

  /** A step writes at most one message to a session's log. */
  ghost predicate Grows(log: seq<Msg>, log': seq<Msg>) {
    log' == log || (log' != [] && log' == log + [log'[|log'| - 1]])
  }

  lemma HelloGrowsLog(cfg: Config, s: State, e: Event, id: nat)
    requires e.HelloDone? && id in s.logs
    ensures id in Step(cfg, s, e).logs && Grows(s.logs[id], Step(cfg, s, e).logs[id])
  {
  }

  lemma LogsGrow(cfg: Config, s: State, e: Event, id: nat)
    requires id in s.logs && id < s.nextSession
    ensures id in Step(cfg, s, e).logs && Grows(s.logs[id], Step(cfg, s, e).logs[id])
  {
    hide Grows;
    if e.HelloDone? {
      HelloGrowsLog(cfg, s, e, id);
    } else {
      OthersGrowLog(cfg, s, e, id);
    }
  }

  lemma OthersGrowLog(cfg: Config, s: State, e: Event, id: nat)
    requires !e.HelloDone? && id in s.logs && id < s.nextSession
    ensures id in Step(cfg, s, e).logs && Grows(s.logs[id], Step(cfg, s, e).logs[id])
  {
    if e.ClientRead? || e.ClientDrop? || e.Show? {
      StepFrames(cfg, s, e);
    } else if e.Recv? {
      RecvGrowsLog(cfg, s, e, id);
    }
  }

  lemma RecvGrowsLog(cfg: Config, s: State, e: Event, id: nat)
    requires e.Recv? && id in s.logs
    ensures id in Step(cfg, s, e).logs && Grows(s.logs[id], Step(cfg, s, e).logs[id])
  {
  }

  /** What is in flight stays in flight while the client's own record does not change. */
  lemma InFlightStays(cfg: Config, s: State, e: Event, c: Client, v: nat)
    requires ClientOrdered(s, c) && v in InFlight(s, c)
    ensures v in InFlight(Step(cfg, s, e), c)
  {
    hide Step, Snaps, Increasing, Drawn;
    var s' := Step(cfg, s, e);
    NoSnaps();
    assert c.link != Offline;
    var id := c.link.session;
    LogsGrow(cfg, s, e, id);
    var log, log' := s.logs[id], s'.logs[id];
    if log' != log {
      SnapsOfTail(log, c.read, log'[|log'| - 1]);
    }
  }

  lemma NoSnaps()
    ensures Snaps([]) == []
  {
  }

  /** The record of a connected client changes only by its own taken, drops and shows. */
  lemma RecordStays(cfg: Config, s: State, e: Event, who: nat)
    requires who in s.clients && s.clients[who].link != Offline
    requires e != ClientRead(who) && e != ClientDrop(who) && e != Show(who)
    ensures who in Step(cfg, s, e).clients && Step(cfg, s, e).clients[who] == s.clients[who]
  {
    StepFrames(cfg, s, e);
  }

  /** Lagging moves the cursor to the oldest value retained. */
  lemma LagOnPending(cfg: Config, s: State, e: Event, who: nat, v: nat)
    requires e.Recv? && who in s.clients && v in Pending(s, s.clients[who])
    requires e.session == s.clients[who].link.session && s.sessions[e.session].cursor + BROADCAST_CAPACITY < |s.sent|
    ensures v in Pending(Step(cfg, s, e), s.clients[who]) || Loses(cfg, s, e, who, v)
  {
    var s' := Step(cfg, s, e);
    var cursor := s.sessions[e.session].cursor;
    var k :| cursor <= k < |s.sent| && s.sent[k] == v;
    if s' != s {
      if k < |s.sent| - BROADCAST_CAPACITY {
        assert s.sent[cursor..|s.sent| - 16][k - cursor] == v;
        assert LosesBecause(cfg, s, e, who, v, Lagged);
      } else {
        assert s'.sent[s'.sessions[e.session].cursor..][k - s'.sessions[e.session].cursor] == v;
      }
    }
  }

  /** A value drawn goes onto the connection, or is lost with it. */
  lemma DrawOnPending(cfg: Config, s: State, e: Event, who: nat, v: nat)
    requires e.Recv? && who in s.clients && ClientOrdered(s, s.clients[who]) && v in Pending(s, s.clients[who])
    requires e.session == s.clients[who].link.session && s.sessions[e.session].cursor + BROADCAST_CAPACITY >= |s.sent|
    ensures var s', c := Step(cfg, s, e), s.clients[who];
            v in Pending(s', c) || v in InFlight(s', c) || Loses(cfg, s, e, who, v)
  {
    hide Increasing, Drawn, Snaps;
    var s', c := Step(cfg, s, e), s.clients[who];
    var id := e.session;
    var cursor := s.sessions[id].cursor;
    var k :| cursor <= k < |s.sent| && s.sent[k] == v;
    if s' != s {
      if !e.written {
        assert LosesBecause(cfg, s, e, who, v, WriteFailed);
      } else if k == cursor {
        SnapsOfTail(s.logs[id], c.read, Snap(v));
      } else {
        assert s'.sent[cursor + 1..][k - (cursor + 1)] == v;
      }
    }
  }

  /** What a session has still to draw after a draw of its own or another's. */
  lemma RecvOnPending(cfg: Config, s: State, e: Event, who: nat, v: nat)
    requires e.Recv? && who in s.clients && ClientOrdered(s, s.clients[who]) && v in Pending(s, s.clients[who])
    ensures var s', c := Step(cfg, s, e), s.clients[who];
            v in Pending(s', c) || v in InFlight(s', c) || Loses(cfg, s, e, who, v)
  {
    hide ClientOrdered, Loses, InFlight;
    var id := s.clients[who].link.session;
    if e.session != id {
      OthersDraw(cfg, s, e, id);
    } else if s.sessions[id].cursor + BROADCAST_CAPACITY < |s.sent| {
      LagOnPending(cfg, s, e, who, v);
    } else {
      DrawOnPending(cfg, s, e, who, v);
    }
  }

  lemma OthersDraw(cfg: Config, s: State, e: Event, id: nat)
    requires e.Recv? && e.session != id && id in s.sessions
    ensures var s' := Step(cfg, s, e); id in s'.sessions && s'.sessions[id] == s.sessions[id] && s'.sent == s.sent
  {
  }

  lemma HelloOnPending(cfg: Config, s: State, e: Event, who: nat, v: nat)
    requires e.HelloDone? && who in s.clients && v in Pending(s, s.clients[who])
    ensures v in Pending(Step(cfg, s, e), s.clients[who]) || Loses(cfg, s, e, who, v)
  {
    var id := s.clients[who].link.session;
    if e.session == id {
      if !e.outcome.Presented? || Provided(e.outcome.token) != cfg.token {
        assert LosesBecause(cfg, s, e, who, v, SessionClosed);
      } else if !e.written {
        assert LosesBecause(cfg, s, e, who, v, WriteFailed);
      }
    }
  }

  lemma EndOnPending(cfg: Config, s: State, e: Event, who: nat, v: nat)
    requires e.TlsDone? || e.Beat? || e.Close?
    requires who in s.clients && v in Pending(s, s.clients[who])
    ensures v in Pending(Step(cfg, s, e), s.clients[who]) || Loses(cfg, s, e, who, v)
  {
    if e.session == s.clients[who].link.session {
      if e.Beat? && !e.written {
        assert LosesBecause(cfg, s, e, who, v, WriteFailed);
      } else if e.Close? || (e.TlsDone? && !e.ok) {
        assert LosesBecause(cfg, s, e, who, v, SessionClosed);
      }
    }
  }

  lemma FeedOnPending(cfg: Config, s: State, e: Event, c: Client, v: nat)
    requires e.Produce? || e.Relay? || e.Connect?
    requires ClientOrdered(s, c) && v in Pending(s, c)
    ensures v in Pending(Step(cfg, s, e), c)
  {
    hide Increasing, Drawn, Snaps;
    var cursor := s.sessions[c.link.session].cursor;
    var s' := Step(cfg, s, e);
    if s'.sent != s.sent {
      assert s'.sent[cursor..] == s.sent[cursor..] + [s.queue[0]];
    }
  }

  lemma PendingStays(cfg: Config, s: State, e: Event, who: nat, v: nat)
    requires ServerOrdered(s) && who in s.clients && ClientOrdered(s, s.clients[who])
    requires e != ClientRead(who) && e != ClientDrop(who) && v in Pending(s, s.clients[who])
    ensures var s', c := Step(cfg, s, e), s.clients[who];
            v in Pending(s', c) || v in InFlight(s', c) || Loses(cfg, s, e, who, v)
  {
    hide ServerOrdered, ClientOrdered, Loses, InFlight;
    match e
    case Recv(_, _) => RecvOnPending(cfg, s, e, who, v);
    case HelloDone(_, _, _) => HelloOnPending(cfg, s, e, who, v);
    case TlsDone(_, _) => EndOnPending(cfg, s, e, who, v);
    case Beat(_, _) => EndOnPending(cfg, s, e, who, v);
    case Close(_) => EndOnPending(cfg, s, e, who, v);
    case ClientRead(_) => StepFrames(cfg, s, e);
    case ClientDrop(_) => StepFrames(cfg, s, e);
    case Show(_) => StepFrames(cfg, s, e);
    case _ => FeedOnPending(cfg, s, e, s.clients[who], v);
  }

  /** What taking a message does to the client's record. */
  lemma ReadEffect(cfg: Config, s: State, who: nat)
    requires who in s.clients
    ensures var s', c := Step(cfg, s, ClientRead(who)), s.clients[who];
            if NextMessage(s, c) == None then s' == s
            else
              var m := NextMessage(s, c).value;
              && who in s'.clients && s'.sent == s.sent && s'.sessions == s.sessions && s'.logs == s.logs
              && var c' := s'.clients[who];
                 && c'.read == c.read + 1 && c'.shown == c.shown
                 && (c'.link == Offline ==> LosesBecause(cfg, s, ClientRead(who), who, 0, Refused))
                 && (c'.link != Offline ==> c'.link.session == c.link.session)
                 && c'.queue == if c.link.Live? && m.Snap? && |c.queue| < cfg.clientCapacity then c.queue + [m.id] else c.queue
  {
  }

  /** Refusal ends the connection, whatever is on its way. */
  lemma RefusedLoses(cfg: Config, s: State, e: Event, who: nat, v: nat)
    requires LosesBecause(cfg, s, e, who, 0, Refused)
    ensures Loses(cfg, s, e, who, v)
  {
    assert LosesBecause(cfg, s, e, who, v, Refused);
  }

  lemma ReadLaw(cfg: Config, s: State, who: nat, v: nat)
    requires ServerOrdered(s) && who in s.clients && ClientOrdered(s, s.clients[who]) && Owed(s, who, v)
    ensures Owed(Step(cfg, s, ClientRead(who)), who, v) || Loses(cfg, s, ClientRead(who), who, v)
  {
    hide ServerOrdered, ClientOrdered, Snaps, Step, LosesBecause, Loses;
    var s', e := Step(cfg, s, ClientRead(who)), ClientRead(who);
    var c := s.clients[who];
    ReadEffect(cfg, s, who);
    if NextMessage(s, c).Some? {
      if s'.clients[who].link == Offline {
        RefusedLoses(cfg, s, e, who, v);
      } else if v in InFlight(s, c) {
        ReadMovesOn(cfg, s, who, v);
      }
    }
  }

  /** The message taken leaves the flight, and a snapshot joins the queue if there is room. */
  lemma ReadMovesOn(cfg: Config, s: State, who: nat, v: nat)
    requires who in s.clients && NextMessage(s, s.clients[who]).Some? && v in InFlight(s, s.clients[who])
    ensures var s', c := Step(cfg, s, ClientRead(who)), s.clients[who];
            && who in s'.clients
            && var c' := s'.clients[who];
               c'.link != Offline ==>
                 v in InFlight(s', c') || v in c'.queue || Loses(cfg, s, ClientRead(who), who, v)
  {
    hide Snaps, Step, LosesBecause;
    var s', e, c := Step(cfg, s, ClientRead(who)), ClientRead(who), s.clients[who];
    var log, m := s.logs[c.link.session], NextMessage(s, c).value;
    ReadEffect(cfg, s, who);
    assert log[c.read..] == [m] + log[c.read + 1..];
    SnapsOfHead(m, log[c.read + 1..]);
    var c' := s'.clients[who];
    if c'.link != Offline && v !in InFlight(s', c') && v !in c'.queue {
      SnapIsQueuedOrLost(cfg, s, who, v);
    }
  }

  lemma SnapIsQueuedOrLost(cfg: Config, s: State, who: nat, v: nat)
    requires who in s.clients && NextMessage(s, s.clients[who]) == Some(Snap(v))
    requires who in Step(cfg, s, ClientRead(who)).clients
    requires v !in Step(cfg, s, ClientRead(who)).clients[who].queue
    ensures Loses(cfg, s, ClientRead(who), who, v)
  {
    var c, e := s.clients[who], ClientRead(who);
    if |c.queue| >= cfg.clientCapacity {
      assert LosesBecause(cfg, s, e, who, v, QueueFull);
    } else {
      assert LosesBecause(cfg, s, e, who, v, Refused);
    }
  }

  lemma ShowLaw(cfg: Config, s: State, who: nat, v: nat)
    requires Owed(s, who, v)
    ensures Owed(Step(cfg, s, Show(who)), who, v)
  {
    hide Snaps;
    var s' := Step(cfg, s, Show(who));
    var c, c' := s.clients[who], s'.clients[who];
    assert c'.shown + c'.queue == c.shown + c.queue;
  }

  lemma KeepsOwed(cfg: Config, s: State, e: Event, who: nat, v: nat)
    requires ServerOrdered(s) && who in s.clients && ClientOrdered(s, s.clients[who]) && Owed(s, who, v)
    ensures Owed(Step(cfg, s, e), who, v) || Loses(cfg, s, e, who, v)
  {
    hide ServerOrdered, ClientOrdered, InFlight, Pending, Loses, Step;
    var c := s.clients[who];
    if e == ClientRead(who) {
      ReadLaw(cfg, s, who, v);
    } else if e == Show(who) {
      ShowLaw(cfg, s, who, v);
    } else if c.link == Offline || e == ClientDrop(who) {
      DropLaw(cfg, s, e, who, v);
    } else {
      RecordStays(cfg, s, e, who);
      if v in InFlight(s, c) {
        InFlightStays(cfg, s, e, c, v);
      } else if v in Pending(s, c) {
        PendingStays(cfg, s, e, who, v);
      }
    }
  }

  /** What was shown or queued survives every step, on or off line. */
  lemma DropLaw(cfg: Config, s: State, e: Event, who: nat, v: nat)
    requires who in s.clients && Owed(s, who, v) && e != ClientRead(who) && e != Show(who)
    requires s.clients[who].link == Offline || e == ClientDrop(who)
    ensures Owed(Step(cfg, s, e), who, v) || Loses(cfg, s, e, who, v)
  {
    hide Snaps;
    StepFrames(cfg, s, e);
    NoSnaps();
    var s' := Step(cfg, s, e);
    var c, c' := s.clients[who], s'.clients[who];
    if c.link != Offline {
      assert LosesBecause(cfg, s, e, who, v, Dropped);
    } else {
      assert c'.shown == c.shown && c'.queue == c.queue;
    }
  }

  // ---------------------------------------------------------------- the law

  /** Event `j` of the run loses `v` for the client. */
  ghost predicate LostAt(cfg: Config, s: State, events: seq<Event>, j: nat, who: nat, v: nat)
    requires j < |events|
  {
    Loses(cfg, Run(cfg, s, events[..j]), events[j], who, v)
  }

  lemma RunSplits(cfg: Config, s: State, a: seq<Event>, b: seq<Event>)
    ensures Run(cfg, s, a + b) == Run(cfg, Run(cfg, s, a), b)
    decreases |b|
  {
    hide Step;
    if b == [] {
      assert a + b == a;
    } else {
      RunSplits(cfg, s, a, b[..|b| - 1]);
      assert (a + b)[..|a + b| - 1] == a + b[..|b| - 1];
    }
  }

  /**
    Nothing is lost silently. Over every run, a snapshot that a client has been shown or
    that is on its way to it stays so, unless an event of the run loses it for a reason
    that has a name.
  */
  lemma {:induction false} NothingIsLostSilently(
    cfg: Config, clients: set<nat>, before: seq<Event>, events: seq<Event>, who: nat, v: nat)
    requires Owed(Run(cfg, Init(cfg, clients), before), who, v)
    ensures var s := Run(cfg, Init(cfg, clients), before);
            || Owed(Run(cfg, s, events), who, v)
            || exists j :: 0 <= j < |events| && LostAt(cfg, s, events, j, who, v)
    decreases |events|
  {
    hide Step, Owed, Loses, Init, ServerOrdered, ClientOrdered;
    var s := Run(cfg, Init(cfg, clients), before);
    if events != [] {
      var n := |events| - 1;
      var front := events[..n];
      NothingIsLostSilently(cfg, clients, before, front, who, v);
      if exists j :: 0 <= j < n && LostAt(cfg, s, front, j, who, v) {
        var j :| 0 <= j < n && LostAt(cfg, s, front, j, who, v);
        assert events[..j] == front[..j];
        assert LostAt(cfg, s, events, j, who, v);
      } else {
        var t := Run(cfg, s, front);
        RunSplits(cfg, Init(cfg, clients), before, front);
        RunIsOrdered(cfg, clients, before + front);
        OwedIsKnown(t, who, v);
        KeepsOwed(cfg, t, events[n], who, v);
        assert LostAt(cfg, s, events, n, who, v) <==> Loses(cfg, t, events[n], who, v);
      }
    }
  }

  lemma OwedIsKnown(s: State, who: nat, v: nat)
    requires Owed(s, who, v)
    ensures who in s.clients
  {
  }

  /** What a subscribed session is owed when the relay broadcasts. */
  lemma BroadcastIsOwed(cfg: Config, s: State, who: nat)
    requires ServerOrdered(s) && who in s.clients && s.clients[who].link != Offline
    requires s.clients[who].link.session in s.sessions && s.queue != []
    ensures Owed(Step(cfg, s, Relay(true)), who, s.queue[0])
  {
    var s', id := Step(cfg, s, Relay(true)), s.clients[who].link.session;
    assert s.sessions != map[] by { assert id in s.sessions; }
    var cursor := s.sessions[id].cursor;
    assert s'.sent[cursor..][|s.sent| - cursor] == s.queue[0];
  }

  // ------------------------------------------------------------- broadcasting

  /** Why a snapshot is never broadcast: no room behind the collector, nobody subscribed, or no encoding. */
  ghost predicate Withholds(cfg: Config, s: State, e: Event, v: nat) {
    || (e == Produce && s.produced == v && |s.queue| >= cfg.collectorCapacity)
    || (e.Relay? && s.queue != [] && s.queue[0] == v && (s.sessions == map[] || !e.encodes))
  }

  ghost predicate WithheldAt(cfg: Config, clients: set<nat>, events: seq<Event>, j: nat, v: nat)
    requires j < |events|
  {
    Withholds(cfg, Run(cfg, Init(cfg, clients), events[..j]), events[j], v)
  }

  lemma StepWithholds(cfg: Config, s: State, e: Event, v: nat)
    ensures var s' := Step(cfg, s, e);
            && s.produced <= s'.produced <= s.produced + 1
            && (v in s.sent + s.queue || (s.produced <= v < s'.produced) ==> v in s'.sent + s'.queue || Withholds(cfg, s, e, v))
  {
    var s' := Step(cfg, s, e);
    if e.Relay? && s' != s && v in s.queue {
      assert s.queue == [s.queue[0]] + s.queue[1..];
    }
  }

  /** Every snapshot produced is broadcast or waiting for the relay, unless it was withheld for one of those reasons. */
  lemma {:induction false} NothingIsWithheldSilently(cfg: Config, clients: set<nat>, events: seq<Event>, v: nat)
    requires v < Run(cfg, Init(cfg, clients), events).produced
    ensures var s := Run(cfg, Init(cfg, clients), events);
            || v in s.sent + s.queue
            || exists j :: 0 <= j < |events| && WithheldAt(cfg, clients, events, j, v)
  {
    hide Step, Withholds;
    if events != [] {
      var n := |events| - 1;
      var front := events[..n];
      var s := Run(cfg, Init(cfg, clients), front);
      StepWithholds(cfg, s, events[n], v);
      if v < s.produced {
        NothingIsWithheldSilently(cfg, clients, front, v);
        if exists j :: 0 <= j < n && WithheldAt(cfg, clients, front, j, v) {
          var j :| 0 <= j < n && WithheldAt(cfg, clients, front, j, v);
          assert events[..j] == front[..j];
          assert WithheldAt(cfg, clients, events, j, v);
        }
      }
      assert WithheldAt(cfg, clients, events, n, v) <==> Withholds(cfg, s, events[n], v);
    }
  }

  // ----------------------------------------------------------------- catching up

  /** A client past its handshake on a session that streams to it without lag, with room for a snapshot. */
  ghost predicate Streams(cfg: Config, s: State, who: nat) {
    && who in s.clients && s.clients[who].link.Live? && cfg.clientCapacity > 0
    && var c := s.clients[who];
       && c.link.session in s.sessions && c.link.session in s.logs && c.read <= |s.logs[c.link.session]|
       && s.sessions[c.link.session].phase == Streaming
       && s.sessions[c.link.session].cursor <= |s.sent| <= s.sessions[c.link.session].cursor + 16
       && forall i :: c.read <= i < |s.logs[c.link.session]| ==> s.logs[c.link.session][i] != Unauthorized
  }

  function Repeat(e: Event, n: nat): seq<Event> {
    if n == 0 then [] else Repeat(e, n - 1) + [e]
  }

  /** The state with one client's record replaced. */
  function With(s: State, who: nat, c: Client): State {
    s.(clients := s.clients[who := c])
  }

  lemma WithAgain(s: State, who: nat, c: Client, c': Client)
    ensures With(With(s, who, c), who, c') == With(s, who, c')
    ensures who in s.clients ==> With(s, who, s.clients[who]) == s
  {
    assert s.clients[who := c][who := c'] == s.clients[who := c'];
    if who in s.clients {
      assert s.clients[who := s.clients[who]] == s.clients;
    }
  }

  lemma ShowStep(cfg: Config, s: State, who: nat)
    requires who in s.clients && s.clients[who].queue != []
    ensures var c := s.clients[who];
            Step(cfg, s, Show(who)) == With(s, who, c.(shown := c.shown + [c.queue[0]], queue := c.queue[1..]))
  {
  }

  /** Showing everything queued. */
  lemma {:induction false} QueueIsShown(cfg: Config, s: State, who: nat, n: nat)
    requires who in s.clients && n <= |s.clients[who].queue|
    ensures var c := s.clients[who];
            Run(cfg, s, Repeat(Show(who), n)) ==
            With(s, who, c.(shown := c.shown + c.queue[..n], queue := c.queue[n..]))
  {
    hide Step, With;
    var c := s.clients[who];
    if n == 0 {
      assert c.shown + c.queue[..0] == c.shown && c.queue[0..] == c.queue;
      WithAgain(s, who, c, c);
    } else {
      var before := c.(shown := c.shown + c.queue[..n - 1], queue := c.queue[n - 1..]);
      QueueIsShown(cfg, s, who, n - 1);
      RepeatGrows(Show(who), n);
      WithHas(s, who, before);
      ShowStep(cfg, With(s, who, before), who);
      assert before.queue[1..] == c.queue[n..] && before.shown + [before.queue[0]] == c.shown + c.queue[..n];
      WithAgain(s, who, before, c.(shown := c.shown + c.queue[..n], queue := c.queue[n..]));
    }
  }

  lemma WithHas(s: State, who: nat, c: Client)
    ensures who in With(s, who, c).clients && With(s, who, c).clients[who] == c
  {
  }

  lemma RepeatGrows(e: Event, n: nat)
    requires n > 0
    ensures Repeat(e, n)[..|Repeat(e, n)| - 1] == Repeat(e, n - 1)
  {
  }

  /** The client's record after taking `n` more messages and showing the snapshots among them. */
  ghost function After(s: State, c: Client, n: nat): Client
    requires n <= |Unread(s, c)|
  {
    c.(read := c.read + n, shown := c.shown + Snaps(Unread(s, c)[..n]))
  }

  function ReadAndShow(who: nat, n: nat): seq<Event> {
    if n == 0 then [] else ReadAndShow(who, n - 1) + [ClientRead(who)] + [Show(who)]
  }

  lemma TwoSteps(cfg: Config, s: State, a: seq<Event>, e: Event, f: Event)
    ensures Run(cfg, s, a + [e] + [f]) == Step(cfg, Step(cfg, Run(cfg, s, a), e), f)
  {
    hide Step;
    assert (a + [e] + [f])[..|a| + 1] == a + [e];
    assert (a + [e])[..|a|] == a;
  }

  /** Reading a message with nothing queued, and showing what it brought. */
  lemma OneRead(cfg: Config, s: State, who: nat)
    requires who in s.clients && s.clients[who].link.Live? && s.clients[who].queue == [] && cfg.clientCapacity > 0
    requires NextMessage(s, s.clients[who]).Some? && NextMessage(s, s.clients[who]) != Some(Unauthorized)
    ensures var c := s.clients[who];
            var m := NextMessage(s, c).value;
            Step(cfg, Step(cfg, s, ClientRead(who)), Show(who)) ==
            With(s, who, c.(read := c.read + 1, shown := c.shown + if m.Snap? then [m.id] else []))
  {
    var c := s.clients[who];
    var m := NextMessage(s, c).value;
    var t := Step(cfg, s, ClientRead(who));
    if m.Snap? {
      var c' := c.(read := c.read + 1, queue := [] + [m.id]);
      assert t == With(s, who, c');
      assert c'.queue == [m.id] && c'.queue[1..] == c.queue;
      ShowStep(cfg, t, who);
      WithAgain(s, who, c', c.(read := c.read + 1, shown := c.shown + [m.id]));
    } else {
      assert t == With(s, who, c.(read := c.read + 1));
      assert c.shown + [] == c.shown;
    }
  }

  lemma {:induction false} UnreadIsShown(cfg: Config, s: State, who: nat, n: nat)
    requires Streams(cfg, s, who) && s.clients[who].queue == [] && n <= |Unread(s, s.clients[who])|
    ensures Run(cfg, s, ReadAndShow(who, n)) == With(s, who, After(s, s.clients[who], n))
  {
    hide Step, Snaps, With;
    var c := s.clients[who];
    if n == 0 {
      NoSnaps();
      assert c.shown + [] == c.shown;
      WithAgain(s, who, c, c);
    } else {
      UnreadIsShown(cfg, s, who, n - 1);
      TwoSteps(cfg, s, ReadAndShow(who, n - 1), ClientRead(who), Show(who));
      NextRead(cfg, s, who, n - 1);
    }
  }

  lemma NextRead(cfg: Config, s: State, who: nat, n: nat)
    requires Streams(cfg, s, who) && s.clients[who].queue == [] && n < |Unread(s, s.clients[who])|
    ensures var t := With(s, who, After(s, s.clients[who], n));
            Step(cfg, Step(cfg, t, ClientRead(who)), Show(who)) == With(s, who, After(s, s.clients[who], n + 1))
  {
    hide Step, Snaps;
    var c := s.clients[who];
    var unread := Unread(s, c);
    var t := With(s, who, After(s, c, n));
    var m := unread[n];
    assert NextMessage(t, t.clients[who]) == Some(m);
    OneRead(cfg, t, who);
    SnapsOfTail(unread[..n], 0, m);
    assert unread[..n] + [m] == unread[..n + 1] && unread[..n + 1][0..] == unread[..n + 1];
    assert unread[..n][0..] == unread[..n];
    var more := if m.Snap? then [m.id] else [];
    assert c.shown + Snaps(unread[..n]) + more == c.shown + (Snaps(unread[..n]) + more);
    WithAgain(s, who, After(s, c, n), After(s, c, n + 1));
  }

  // --------------------------------------------- draw, read, show, one by one

  function Draw(who: nat, id: nat, n: nat): seq<Event> {
    if n == 0 then [] else Draw(who, id, n - 1) + [Recv(id, true)] + [ClientRead(who)] + [Show(who)]
  }

  /** Drawn up to `cursor`, everything read and shown. */
  ghost predicate CaughtUp(s: State, who: nat) {
    who in s.clients && s.clients[who].queue == [] && Unread(s, s.clients[who]) == []
  }

  /** One broadcast value goes all the way. */
  lemma OneDraw(cfg: Config, s: State, who: nat)
    requires Streams(cfg, s, who) && CaughtUp(s, who)
    requires s.sessions[s.clients[who].link.session].cursor < |s.sent|
    ensures var c := s.clients[who];
            var id := c.link.session;
            var s' := Step(cfg, Step(cfg, Step(cfg, s, Recv(id, true)), ClientRead(who)), Show(who));
            && Streams(cfg, s', who) && CaughtUp(s', who) && s'.sent == s.sent && s'.clients[who].link == c.link
            && s'.sessions[id].cursor == s.sessions[id].cursor + 1
            && s'.clients[who].shown == c.shown + [s.sent[s.sessions[id].cursor]]
  {
    var c := s.clients[who];
    var id := c.link.session;
    var t := Step(cfg, s, Recv(id, true));
    assert t.logs[id] == s.logs[id] + [Snap(s.sent[s.sessions[id].cursor])];
    assert c.read == |s.logs[id]|;
    hide Step;
    OneRead(cfg, t, who);
  }

  lemma ThreeSteps(cfg: Config, s: State, a: seq<Event>, e: Event, f: Event, g: Event)
    ensures Run(cfg, s, a + [e] + [f] + [g]) == Step(cfg, Step(cfg, Step(cfg, Run(cfg, s, a), e), f), g)
  {
    hide Step;
    TwoSteps(cfg, s, a, e, f);
    assert (a + [e] + [f] + [g])[..|a| + 2] == a + [e] + [f];
  }

  lemma {:induction false} DrawsAreShown(cfg: Config, s: State, who: nat, n: nat)
    requires Streams(cfg, s, who) && CaughtUp(s, who)
    requires s.sessions[s.clients[who].link.session].cursor + n <= |s.sent|
    ensures var c := s.clients[who];
            var id := c.link.session;
            var cursor := s.sessions[id].cursor;
            var s' := Run(cfg, s, Draw(who, id, n));
            && Streams(cfg, s', who) && CaughtUp(s', who) && s'.sent == s.sent && s'.clients[who].link == c.link
            && s'.sessions[id].cursor == cursor + n
            && s'.clients[who].shown == c.shown + s.sent[cursor..cursor + n]
  {
    hide Step, CaughtUp;
    var c := s.clients[who];
    var id := c.link.session;
    var cursor := s.sessions[id].cursor;
    if n == 0 {
      assert c.shown + [] == c.shown;
    } else {
      DrawsAreShown(cfg, s, who, n - 1);
      var t := Run(cfg, s, Draw(who, id, n - 1));
      ThreeSteps(cfg, s, Draw(who, id, n - 1), Recv(id, true), ClientRead(who), Show(who));
      OneDraw(cfg, t, who);
      assert c.shown + s.sent[cursor..cursor + n - 1] + [s.sent[cursor + n - 1]] == c.shown + s.sent[cursor..cursor + n];
    }
  }

  /** Show the queue, then take and show what is written, then draw the rest. */
  ghost function CatchUp(s: State, who: nat): seq<Event>
    requires who in s.clients && s.clients[who].link != Offline && s.clients[who].link.session in s.sessions
    requires s.sessions[s.clients[who].link.session].cursor <= |s.sent|
  {
    var c := s.clients[who];
    Repeat(Show(who), |c.queue|) + ReadAndShow(who, |Unread(s, c)|)
    + Draw(who, c.link.session, |s.sent| - s.sessions[c.link.session].cursor)
  }

  /**
    A streaming client can always be brought up to date: there are events after which it
    has been shown everything on its way and every value broadcast since its cursor, in
    order and nothing else.
  */
  lemma EverythingArrives(cfg: Config, s: State, who: nat)
    requires Streams(cfg, s, who)
    ensures var c := s.clients[who];
            var s' := Run(cfg, s, CatchUp(s, who));
            && who in s'.clients
            && s'.clients[who].shown == Chain(s, c) + s.sent[s.sessions[c.link.session].cursor..]
  {
    hide Step, Run, Snaps, With;
    var c := s.clients[who];
    var id := c.link.session;
    var shows, taken := Repeat(Show(who), |c.queue|), ReadAndShow(who, |Unread(s, c)|);
    var draws := Draw(who, id, |s.sent| - s.sessions[id].cursor);
    QueueIsShown(cfg, s, who, |c.queue|);
    var c1 := c.(shown := c.shown + c.queue, queue := []);
    assert c.queue[..|c.queue|] == c.queue && c.queue[|c.queue|..] == [];
    var s1 := With(s, who, c1);
    StillStreams(cfg, s, who, c1);
    UnreadIsShown(cfg, s1, who, |Unread(s, c)|);
    var c2 := After(s1, c1, |Unread(s, c)|);
    assert Unread(s1, c1)[..|Unread(s, c)|] == Unread(s, c);
    var s2 := With(s1, who, c2);
    StillStreams(cfg, s1, who, c2);
    DrawsAreShown(cfg, s2, who, |s.sent| - s.sessions[id].cursor);
    RunSplits(cfg, s, shows, taken);
    RunSplits(cfg, s, shows + taken, draws);
  }

  lemma StillStreams(cfg: Config, s: State, who: nat, c: Client)
    requires Streams(cfg, s, who) && c.link == s.clients[who].link
    requires s.clients[who].read <= c.read <= |s.logs[c.link.session]|
    ensures var s' := With(s, who, c);
            && Streams(cfg, s', who) && s'.clients[who] == c && s'.sent == s.sent && s'.sessions == s.sessions
            && Unread(s', c) == Unread(s, c)
            && (c.read == |s.logs[c.link.session]| && c.queue == [] ==> CaughtUp(s', who))
  {
  }

  // ------------------------------------------------------- over reachable states

  /** The client is past its handshake on a live session that streams to it and has not lagged. */
  ghost predicate Connected(s: State, who: nat) {
    && who in s.clients && s.clients[who].link.Live?
    && var id := s.clients[who].link.session;
       id in s.sessions && s.sessions[id].phase == Streaming && |s.sent| <= s.sessions[id].cursor + 16
  }

  lemma ConnectedStreams(cfg: Config, clients: set<nat>, events: seq<Event>, who: nat)
    requires cfg.clientCapacity > 0 && Connected(Run(cfg, Init(cfg, clients), events), who)
    ensures Streams(cfg, Run(cfg, Init(cfg, clients), events), who)
  {
    hide Run, Init, Increasing, Drawn, Snaps;
    var s := Run(cfg, Init(cfg, clients), events);
    RunIsOrdered(cfg, clients, events);
    HandshakeComesFirst(cfg, clients, events);
    var id := s.clients[who].link.session;
    assert SessionOk(cfg, s, id);
  }

  /**
    In every reachable state a connected client can be brought up to date: some events
    make it show what it was shown, what is on its way, and everything broadcast since,
    in that order and nothing else.
  */
  lemma ConnectedIsBroughtUpToDate(cfg: Config, clients: set<nat>, events: seq<Event>, who: nat)
    requires cfg.clientCapacity > 0 && Connected(Run(cfg, Init(cfg, clients), events), who)
    ensures exists more ::
              var s, s' := Run(cfg, Init(cfg, clients), events), Run(cfg, Init(cfg, clients), events + more);
              var c := s.clients[who];
              && who in s'.clients && c.link.session in s.sessions && s.sessions[c.link.session].cursor <= |s.sent|
              && s'.clients[who].shown == Chain(s, c) + s.sent[s.sessions[c.link.session].cursor..]
  {
    hide Run, Init, Chain, CatchUp;
    var s := Run(cfg, Init(cfg, clients), events);
    ConnectedStreams(cfg, clients, events, who);
    EverythingArrives(cfg, s, who);
    var more := CatchUp(s, who);
    RunSplits(cfg, Init(cfg, clients), events, more);
    assert Run(cfg, Init(cfg, clients), events + more) == Run(cfg, s, more);
  }

  /** The events of a client getting in with a token. */
  function Dial(who: nat, id: nat, token: Option<Token>): seq<Event> {
    [Connect(who, true), TlsDone(id, true), HelloDone(id, Presented(token), true), ClientRead(who)]
  }

  lemma FourSteps(cfg: Config, s: State, d: Event, e: Event, f: Event, g: Event)
    ensures Run(cfg, s, [d, e, f, g]) == Step(cfg, Step(cfg, Step(cfg, Step(cfg, s, d), e), f), g)
  {
    hide Step;
    assert [d, e, f, g] == [d] + [e] + [f] + [g] && [d][..0] == [];
    ThreeSteps(cfg, s, [d], e, f, g);
    assert Run(cfg, s, [d]) == Step(cfg, s, d);
  }

  /**
    A client off line gets in while there is a permit, exactly with the configured token:
    with it the session streams from the next broadcast on, without it the client is off
    line again and the permit is back. Either way it keeps what it has shown and queued.
  */
  lemma DialingIn(cfg: Config, s: State, who: nat, token: Option<Token>)
    requires who in s.clients && s.clients[who].link == Offline && s.permits > 0 && s.nextSession !in s.sessions
    ensures var id := s.nextSession;
            var s' := Run(cfg, s, Dial(who, id, token));
            && who in s'.clients
            && s'.clients[who].shown == s.clients[who].shown && s'.clients[who].queue == s.clients[who].queue
            && s'.sent == s.sent && s'.queue == s.queue && s'.produced == s.produced
            && (s'.clients[who].link == Live(id) <==> Provided(token) == cfg.token)
            && if Provided(token) == cfg.token
               then Connected(s', who) && s'.sessions[id].cursor == |s.sent| && Unread(s', s'.clients[who]) == []
               else s'.clients[who].link == Offline && s'.permits == s.permits && s'.sessions == s.sessions
  {
    var id := s.nextSession;
    FourSteps(cfg, s, Connect(who, true), TlsDone(id, true), HelloDone(id, Presented(token), true), ClientRead(who));
    hide Run, Step, Provided;
    Dialled(cfg, s, who);
    var t := Step(cfg, Step(cfg, s, Connect(who, true)), TlsDone(id, true));
    if Provided(token) == cfg.token {
      Welcomed(cfg, t, who, token);
    } else {
      TurnedAway(cfg, t, who, token);
      assert t.sessions - {id} == s.sessions;
    }
  }

  lemma Dialled(cfg: Config, s: State, who: nat)
    requires who in s.clients && s.clients[who].link == Offline && s.permits > 0 && s.nextSession !in s.sessions
    ensures var id := s.nextSession;
            Step(cfg, Step(cfg, s, Connect(who, true)), TlsDone(id, true)) ==
            s.(permits := s.permits - 1, nextSession := id + 1,
               sessions := s.sessions[id := Session(AwaitHello, |s.sent|)], logs := s.logs[id := []],
               clients := s.clients[who := s.clients[who].(link := Handshaking(id), read := 0)])
  {
    var id := s.nextSession;
    var s1 := Step(cfg, s, Connect(who, true));
    assert s1.sessions[id] == Session(Tls, |s.sent|);
    assert s.sessions[id := Session(Tls, |s.sent|)][id := Session(AwaitHello, |s.sent|)]
        == s.sessions[id := Session(AwaitHello, |s.sent|)];
  }

  /** A session waiting for the Hello of a client that has read nothing. */
  ghost predicate Knocking(s: State, who: nat) {
    && who in s.clients && s.clients[who].link.Handshaking? && s.clients[who].read == 0
    && var id := s.clients[who].link.session;
       && id in s.sessions && id in s.logs && s.sessions[id].phase == AwaitHello && s.logs[id] == []
  }

  lemma Welcomed(cfg: Config, s: State, who: nat, token: Option<Token>)
    requires Knocking(s, who) && Provided(token) == cfg.token
    ensures var id := s.clients[who].link.session;
            var s' := Step(cfg, Step(cfg, s, HelloDone(id, Presented(token), true)), ClientRead(who));
            && who in s'.clients && s'.clients[who] == s.clients[who].(link := Live(id), read := 1)
            && id in s'.sessions && s'.sessions[id] == Session(Streaming, s.sessions[id].cursor)
            && id in s'.logs && s'.logs[id] == [Welcome]
            && s'.sent == s.sent && s'.queue == s.queue && s'.produced == s.produced
  {
    hide Provided;
    var id := s.clients[who].link.session;
    var t := Step(cfg, s, HelloDone(id, Presented(token), true));
    assert t.logs[id] == [Welcome] && t.sessions[id] == Session(Streaming, s.sessions[id].cursor);
  }

  lemma TurnedAway(cfg: Config, s: State, who: nat, token: Option<Token>)
    requires Knocking(s, who) && Provided(token) != cfg.token
    ensures var id := s.clients[who].link.session;
            var s' := Step(cfg, Step(cfg, s, HelloDone(id, Presented(token), true)), ClientRead(who));
            && who in s'.clients && s'.clients[who] == s.clients[who].(link := Offline, read := 1)
            && s'.permits == s.permits + 1 && s'.sessions == s.sessions - {id}
            && s'.sent == s.sent && s'.queue == s.queue && s'.produced == s.produced
  {
    hide Provided;
    var id := s.clients[who].link.session;
    var t := Step(cfg, s, HelloDone(id, Presented(token), true));
    assert t.logs[id] == [Unauthorized];
  }

  /** A snapshot produced with room in the queues and somebody subscribed is broadcast next. */
  lemma FreshIsBroadcast(cfg: Config, s: State)
    requires cfg.collectorCapacity > 0 && s.queue == [] && s.sessions != map[]
    ensures var s' := Step(cfg, Step(cfg, s, Produce), Relay(true));
            && s'.sent == s.sent + [s.produced] && s'.queue == [] && s'.produced == s.produced + 1
            && s'.sessions == s.sessions && s'.clients == s.clients && s'.logs == s.logs
  {
  }

  /** From dialling in to the screen: a snapshot produced for a client that has caught up is shown next. */
  lemma FreshIsShown(cfg: Config, s: State, who: nat)
    requires cfg.collectorCapacity > 0 && s.queue == [] && Streams(cfg, s, who) && CaughtUp(s, who)
    requires s.sessions[s.clients[who].link.session].cursor == |s.sent|
    ensures var id := s.clients[who].link.session;
            var t := Step(cfg, Step(cfg, s, Produce), Relay(true));
            var s' := Step(cfg, Step(cfg, Step(cfg, t, Recv(id, true)), ClientRead(who)), Show(who));
            who in s'.clients && s'.clients[who].shown == s.clients[who].shown + [s.produced]
  {
    hide Step;
    var id := s.clients[who].link.session;
    assert s.sessions != map[] by { assert id in s.sessions; }
    FreshIsBroadcast(cfg, s);
    var t := Step(cfg, Step(cfg, s, Produce), Relay(true));
    OneDraw(cfg, t, who);
  }
}
